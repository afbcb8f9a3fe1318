/** The HTTP routes: request defaults, validation (400), the calls into the
    service, and the JSON envelope (`success` with data, or a status with an
    error message). Caches are threaded through as values. */
module Server {
  import opened Wrappers
  import opened Text
  import opened Tally
  import opened Videos
  import opened Duration
  import opened Trends
  import opened Prompts
  import opened Images
  import ServiceKeywords

  /** `{ success: true, data }`, or a status code with `{ success: false, error }`. */
  datatype Response<T> = Success(data: T) | Failure(status: int, error: string)

  const NoVideo: string := "비디오 데이터가 없습니다."
  const NoAnalysisData: string := "분석할 데이터가 없습니다."
  const NoPrompts: string := "유효한 프롬프트 배열이 없습니다."
  const ScriptRouteFailed: string := "Video script generation failed"

  const DefaultRegion: string := "KR"
  const DefaultPeriod: string := "1w"
  const DefaultCategory: string := "0"
  const DefaultAspectRatio: string := "1:1"

  /** The prompt route's default length in seconds. */
  const DefaultPromptSeconds: int := 15

  /** The caches and oracles the routes share. */
  datatype Env = Env(
    youtubeKey: string,
    geminiKey: string,
    fetchTrends: TrendsRequest -> Fetched<RawItem>,
    fetchCategories: string -> Fetched<Category>,
    storyboardModel: StoryboardRequest -> Result<string>,
    scriptModel: ScriptRequest -> Result<string>,
    analysisModel: AnalysisRequest -> Result<string>,
    imageModel: string -> ImageReply,
    fmt: Formatters,
    factor: int -> real)

  /** The caches: trends, categories, and the prompt cache shared by
      storyboards and scripts. */
  datatype Caches = Caches(trends: map<string, seq<RawItem>>,
                           categories: map<string, seq<Category>>,
                           prompts: map<string, string>)

  // ---------------------------------------------------------------------
  // GET /api/categories
  // ---------------------------------------------------------------------

  function CategoriesRoute(env: Env, c: Caches, region: Option<string>): (r: (Response<seq<Category>>, Caches))
    ensures r.0.Success?
    ensures r.0.data == GetVideoCategories(c.categories, region.GetOr(DefaultRegion), env.fetchCategories).0
    ensures r.1.trends == c.trends && r.1.prompts == c.prompts
  {
    var (cats, cc) := GetVideoCategories(c.categories, region.GetOr(DefaultRegion), env.fetchCategories);
    (Success(cats), c.(categories := cc))
  }

  // ---------------------------------------------------------------------
  // GET /api/trends
  // ---------------------------------------------------------------------

  /** The route's keywords: recomputed from `topVideos` when there are any. */
  function RouteKeywords(data: TrendsData, factor: int -> real): seq<Entry>
  {
    if |data.topVideos| > 0 then ServiceKeywords.ExtractKeywords(data.topVideos, factor) else []
  }

  function TrendsRoute(env: Env, c: Caches, region: Option<string>, period: Option<string>,
                       categoryId: Option<string>, cutoff: int): (r: (Response<TrendsData>, Caches))
    ensures var res := GetTrends(env.youtubeKey, c.trends, region.GetOr(DefaultRegion), period.GetOr(DefaultPeriod),
                                 categoryId.GetOr(DefaultCategory), cutoff, env.fetchTrends, env.fmt, env.factor);
      && (res.Err? ==> r == (Failure(500, res.msg), c))
      && (res.Ok? ==> r.0.Success? && r.0.data.topVideos == res.value.0.topVideos
                      && r.0.data.meta == res.value.0.meta && r.1 == c.(trends := res.value.1))
  {
    var res := GetTrends(env.youtubeKey, c.trends, region.GetOr(DefaultRegion), period.GetOr(DefaultPeriod),
                         categoryId.GetOr(DefaultCategory), cutoff, env.fetchTrends, env.fmt, env.factor);
    match res
    case Err(msg) => (Failure(500, msg), c)
    case Ok((data, tc)) => (Success(data.(keywords := RouteKeywords(data, env.factor))), c.(trends := tc))
  }

  /** Recomputing the keywords in the route changes nothing: they are the
      ones the listing already computed, also when the list is empty. */
  lemma RouteKeywordsUnchanged(env: Env, c: Caches, region: Option<string>, period: Option<string>,
                               categoryId: Option<string>, cutoff: int)
    ensures var res := GetTrends(env.youtubeKey, c.trends, region.GetOr(DefaultRegion), period.GetOr(DefaultPeriod),
                                 categoryId.GetOr(DefaultCategory), cutoff, env.fetchTrends, env.fmt, env.factor);
      res.Ok? ==> TrendsRoute(env, c, region, period, categoryId, cutoff).0 == Success(res.value.0)
  {
    var res := GetTrends(env.youtubeKey, c.trends, region.GetOr(DefaultRegion), period.GetOr(DefaultPeriod),
                         categoryId.GetOr(DefaultCategory), cutoff, env.fetchTrends, env.fmt, env.factor);
    if res.Ok? {
      var data := res.value.0;
      if |data.topVideos| == 0 {
        assert ServiceKeywords.ExtractKeywords(data.topVideos, env.factor) == [];
      }
      assert RouteKeywords(data, env.factor) == data.keywords;
    }
  }

  /** `GET /api/trends` over the listing as written: the TypeError of a
      duration without `"PT"` is caught like any other error and answered
      with a 500, while the trends cache keeps what the listing stored. */
  function TrendsRouteAsWritten(env: Env, c: Caches, region: Option<string>, period: Option<string>,
                                categoryId: Option<string>, cutoff: int): (r: (Response<TrendsData>, Caches))
    ensures var res := GetTrendsAsWritten(env.youtubeKey, c.trends, region.GetOr(DefaultRegion),
                                          period.GetOr(DefaultPeriod), categoryId.GetOr(DefaultCategory),
                                          cutoff, env.fetchTrends, env.fmt, env.factor);
      && r.1 == c.(trends := res.1)
      && (res.0.Err? ==> r.0 == Failure(500, res.0.msg))
      && (res.0.Ok? ==> r.0 == Success(res.0.value))
  {
    var res := GetTrendsAsWritten(env.youtubeKey, c.trends, region.GetOr(DefaultRegion), period.GetOr(DefaultPeriod),
                                  categoryId.GetOr(DefaultCategory), cutoff, env.fetchTrends, env.fmt, env.factor);
    match res.0
    case Err(msg) => (Failure(500, msg), c.(trends := res.1))
    case Ok(data) =>
      assert |data.topVideos| == 0 ==> ServiceKeywords.ExtractKeywords(data.topVideos, env.factor) == [];
      (Success(data.(keywords := RouteKeywords(data, env.factor))), c.(trends := res.1))
  }

  /** A cached live broadcast inside the window: the route as written
      answers 500 with the TypeError's message, the corrected route lists the
      videos. */
  lemma LiveItemAnswers500(env: Env, c: Caches, region: Option<string>, period: Option<string>,
                           categoryId: Option<string>, cutoff: int, k: int)
    requires env.youtubeKey != ""
    requires TrendsKey(region.GetOr(DefaultRegion), period.GetOr(DefaultPeriod), categoryId.GetOr(DefaultCategory)) in c.trends
    requires var items := c.trends[TrendsKey(region.GetOr(DefaultRegion), period.GetOr(DefaultPeriod),
                                             categoryId.GetOr(DefaultCategory))];
      0 <= k < |items| && InWindow(items[k], cutoff) && items[k].duration == "P0D"
    ensures TrendsRouteAsWritten(env, c, region, period, categoryId, cutoff).0 == Failure(500, NullMatchError)
    ensures TrendsRoute(env, c, region, period, categoryId, cutoff).0.Success?
  {
    LiveItemFailsTrends(env.youtubeKey, c.trends, region.GetOr(DefaultRegion), period.GetOr(DefaultPeriod),
                        categoryId.GetOr(DefaultCategory), cutoff, env.fetchTrends, env.fmt, env.factor, k);
  }

  // ---------------------------------------------------------------------
  // POST /api/analyze-ai
  // ---------------------------------------------------------------------

  /** A field a template literal interpolates: a missing one reads `undefined`. */
  function Interpolated(s: Option<string>): string { s.GetOr("undefined") }

  function AnalyzeRoute(env: Env, videos: Option<seq<Video>>, region: Option<string>,
                        filterContext: Option<string>): (r: Response<string>)
    ensures (videos.None? || videos.value == []) <==> r == Failure(400, NoAnalysisData)
    ensures r.Failure? ==> r.status == 400
  {
    if videos.None? || videos.value == [] then Failure(400, NoAnalysisData)
    else Success(AnalyzeWithAI(env.geminiKey, videos.value, Interpolated(region), Interpolated(filterContext),
                               env.analysisModel))
  }

  // ---------------------------------------------------------------------
  // POST /api/generate-prompt
  // ---------------------------------------------------------------------

  /** `{ imagePrompts, videoScript, duration }`: the two raw model texts and
      the requested length echoed back. */
  datatype PromptEnvelope = PromptEnvelope(imagePrompts: string, videoScript: string, duration: DurationValue)

  /** `/api/generate-prompt`: the storyboard is asked for with
      `frameCount = ceil(duration / 3)`, then the script with the unmodified
      duration; either failure is a 500 without partial data, although a
      storyboard cached before the script failed stays cached. */
  function PromptRoute(env: Env, c: Caches, video: Option<Video>, duration: Option<DurationValue>)
    : (r: (Response<PromptEnvelope>, Caches))
    ensures video.None? ==> r == (Failure(400, NoVideo), c)
    ensures video.Some? ==>
      var d := duration.GetOr(Seconds(DefaultPromptSeconds));
      var sb := GenerateVideoPrompt(env.geminiKey, c.prompts, video.value, FrameCount(d), env.storyboardModel);
      match sb
      case Err(msg) => r == (Failure(500, msg), c)
      case Ok((board, pc)) =>
        var sc := GenerateDetailedVideoScript(env.geminiKey, pc, video.value, Some(d), env.scriptModel);
        match sc
        case Err(msg) => r == (Failure(500, msg), c.(prompts := pc))
        case Ok((script, pc')) => r == (Success(PromptEnvelope(board, script, d)), c.(prompts := pc'))
  {
    if video.None? then (Failure(400, NoVideo), c)
    else
      var d := duration.GetOr(Seconds(DefaultPromptSeconds));
      var frameCount := FrameCount(d);
      match GenerateVideoPrompt(env.geminiKey, c.prompts, video.value, frameCount, env.storyboardModel)
      case Err(msg) => (Failure(500, msg), c)
      case Ok((board, pc)) =>
        match GenerateDetailedVideoScript(env.geminiKey, pc, video.value, Some(d), env.scriptModel)
        case Err(msg) => (Failure(500, msg), c.(prompts := pc))
        case Ok((script, pc')) => (Success(PromptEnvelope(board, script, d)), c.(prompts := pc'))
  }

  /** A request without a video is refused before any model is consulted. */
  lemma PromptRouteRejectsBeforeModels(env: Env, c: Caches, duration: Option<DurationValue>,
                                       sm: StoryboardRequest -> Result<string>,
                                       cm: ScriptRequest -> Result<string>)
    ensures PromptRoute(env, c, None, duration)
         == PromptRoute(env.(storyboardModel := sm, scriptModel := cm), c, None, duration)
    ensures PromptRoute(env, c, None, duration).0 == Failure(400, NoVideo)
  {
  }

  /** The storyboard key depends on the duration only through
      `ceil(duration / 3)`: lengths in the same three-second band share it. */
  lemma StoryboardKeyPerFrameBand(v: Video, d1: int, d2: int)
    requires CeilDiv(d1, FrameIntervalSeconds) == CeilDiv(d2, FrameIntervalSeconds)
    ensures StoryboardKey(StoryboardId(v), DurationInt(FrameCount(Seconds(d1))))
         == StoryboardKey(StoryboardId(v), DurationInt(FrameCount(Seconds(d2))))
  {
  }

  /** With the default fifteen seconds the storyboard generator is told the
      video lasts 5 seconds and asked for a single scene. */
  lemma DefaultLengthAsksForOneScene()
    ensures FrameCount(Seconds(DefaultPromptSeconds)) == Some(5)
    ensures DurationInt(Some(5)) == 5
    ensures SceneCount(5) == 1
  {
  }

  /** A zero length gives `frameCount` 0, which the generator replaces by 40,
      so it shares a storyboard with lengths of 118 to 120 seconds. */
  lemma ZeroLengthSharesStoryboardWith120(v: Video, d: int)
    requires 118 <= d <= 120
    ensures DurationInt(FrameCount(Seconds(0))) == 40
    ensures StoryboardKey(StoryboardId(v), DurationInt(FrameCount(Seconds(0))))
         == StoryboardKey(StoryboardId(v), DurationInt(FrameCount(Seconds(d))))
  {
    assert FrameCount(Seconds(0)) == Some(0);
    assert FrameCount(Seconds(d)) == Some(40);
  }

  /** A 500 after the storyboard succeeded still leaves a long storyboard in
      the cache: the next request for the same video and length is answered
      from it without consulting the storyboard model. */
  lemma ScriptFailureKeepsStoryboard(env: Env, c: Caches, v: Video, d: DurationValue,
                                     later: StoryboardRequest -> Result<string>)
    requires var sb := GenerateVideoPrompt(env.geminiKey, c.prompts, v, FrameCount(d), env.storyboardModel);
      sb.Ok? && |sb.value.0| > MinCachedLength &&
      GenerateDetailedVideoScript(env.geminiKey, sb.value.1, v, Some(d), env.scriptModel).Err?
    ensures var sb := GenerateVideoPrompt(env.geminiKey, c.prompts, v, FrameCount(d), env.storyboardModel);
      var (resp, c') := PromptRoute(env, c, Some(v), Some(d));
      resp.Failure? && resp.status == 500 &&
      GenerateVideoPrompt(env.geminiKey, c'.prompts, v, FrameCount(d), later) == Ok((sb.value.0, c'.prompts))
  {
    StoryboardRepeat(env.geminiKey, c.prompts, v, FrameCount(d), env.storyboardModel, later);
  }

  // ---------------------------------------------------------------------
  // POST /api/generate-image
  // ---------------------------------------------------------------------

  /** `prompts` is `None` when it is missing or not an array. */
  function ImageRoute(env: Env, prompts: Option<seq<string>>, aspectRatio: Option<string>): (r: Response<seq<string>>)
    ensures (prompts.None? || prompts.value == []) <==> r == Failure(400, NoPrompts)
    ensures prompts.Some? && prompts.value != [] ==>
      match GenerateImage(env.geminiKey, prompts.value, aspectRatio.GetOr(DefaultAspectRatio), env.imageModel)
      case Ok(images) => r == Success(images)
      case Err(msg) => r == Failure(500, msg)
  {
    if prompts.None? || prompts.value == [] then Failure(400, NoPrompts)
    else
      match GenerateImage(env.geminiKey, prompts.value, aspectRatio.GetOr(DefaultAspectRatio), env.imageModel)
      case Ok(images) => Success(images)
      case Err(msg) => Failure(500, msg)
  }

  // ---------------------------------------------------------------------
  // POST /api/generate-video-script
  // ---------------------------------------------------------------------

  /** The route never passes a length, so the script is always the
      fifteen-second one; failures are reported with a fixed message. */
  function ScriptRoute(env: Env, c: Caches, video: Option<Video>): (r: (Response<string>, Caches))
    ensures video.None? ==> r == (Failure(400, NoVideo), c)
    ensures video.Some? ==>
      match GenerateDetailedVideoScript(env.geminiKey, c.prompts, video.value, Some(Seconds(DefaultScriptSeconds)), env.scriptModel)
      case Ok((script, pc)) => r == (Success(script), c.(prompts := pc))
      case Err(_) => r == (Failure(500, ScriptRouteFailed), c)
  {
    if video.None? then (Failure(400, NoVideo), c)
    else
      match GenerateDetailedVideoScript(env.geminiKey, c.prompts, video.value, None, env.scriptModel)
      case Ok((script, pc)) => (Success(script), c.(prompts := pc))
      case Err(_) => (Failure(500, ScriptRouteFailed), c)
  }

  /** The script route and the prompt route with the default length use the
      same script cache entry. */
  lemma ScriptRouteSharesDefaultEntry(v: Video)
    ensures ScriptKey(v.id, Shown(TargetDuration(None))) == ScriptKey(v.id, Shown(Seconds(DefaultPromptSeconds)))
    ensures Shown(TargetDuration(None)) == "15"
  {
    assert NatToString(15) == NatToString(1) + [DigitChar(5)];
  }
}
