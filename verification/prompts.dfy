/** The three Gemini text generations of the service: the storyboard
    (`generateVideoPrompt`), the shooting script
    (`generateDetailedVideoScript`) and the market analysis
    (`analyzeWithAI`). The model is an oracle from the numbers and records
    interpolated into the prompt to the text it answers or the message of the
    error it throws; both generated texts share one prompt cache. */
module Prompts {
  import opened Wrappers
  import opened Text
  import opened Seqs
  import opened Videos
  import opened Duration

  /** The message thrown when the Gemini key is not configured. */
  const MissingGeminiKey: string := "GEMINI_API_KEY가 설정되지 않았습니다."

  // ---------------------------------------------------------------------
  // Storyboard: generateVideoPrompt(videoData, duration = 40)
  // ---------------------------------------------------------------------

  /** What the storyboard prompt is built from: the video, the length in
      seconds and the exact number of five-second scenes demanded. */
  datatype StoryboardRequest = StoryboardRequest(video: Video, durationInt: int, sceneCount: int)

  const StoryboardFailed: string := "숏츠 프롬프트 생성에 실패했습니다."

  /** Texts of at most this length are not cached. */
  const MinCachedLength: int := 50

  /** `videoData.id || videoData.title.replace(/\s+/g, '_')`. */
  function StoryboardId(v: Video): (r: string)
    ensures v.id != "" ==> r == v.id
    ensures v.id == "" ==> forall i :: 0 <= i < |r| ==> !IsSpace(r[i])
  {
    if v.id != "" then v.id else CollapseSpaces(v.title)
  }

  /** `prompt_shorts_${videoId}_${durationInt}`. */
  function StoryboardKey(id: string, durationInt: int): string
  {
    "prompt_shorts_" + id + "_" + IntToString(durationInt)
  }

  /** `generateVideoPrompt`. `duration` is `None` when it is omitted or not a
      number; the result carries the prompt cache afterwards. */
  function GenerateVideoPrompt(geminiKey: string, cache: map<string, string>, v: Video,
                               duration: Option<int>,
                               model: StoryboardRequest -> Result<string>): (r: Result<(string, map<string, string>)>)
    ensures geminiKey == "" ==> r == Err(MissingGeminiKey)
    ensures geminiKey != "" ==>
      var d := DurationInt(duration);
      var key := StoryboardKey(StoryboardId(v), d);
      if key in cache && cache[key] != "" then r == Ok((cache[key], cache))
      else match model(StoryboardRequest(v, d, SceneCount(d)))
        case Err(_) => r == Err(StoryboardFailed)
        case Ok(text) =>
          r.Ok? && r.value.0 == text &&
          r.value.1 == (if |text| > MinCachedLength then cache[key := text] else cache)
  {
    if geminiKey == "" then Err(MissingGeminiKey)
    else
      var durationInt := DurationInt(duration);
      var sceneCount := SceneCount(durationInt);
      var key := StoryboardKey(StoryboardId(v), durationInt);
      if key in cache && cache[key] != "" then Ok((cache[key], cache))
      else
        match model(StoryboardRequest(v, durationInt, sceneCount))
        case Err(_) => Err(StoryboardFailed)
        case Ok(text) =>
          var cache' := if |text| > MinCachedLength then cache[key := text] else cache;
          Ok((text, cache'))
  }

  /** The model is asked for `ceil(durationInt / 5)` scenes, where a zero or
      missing length means forty seconds. */
  lemma StoryboardSceneDemand(duration: Option<int>)
    ensures duration.Some? && duration.value > 0 ==>
      SceneCount(DurationInt(duration)) * SceneSeconds >= duration.value > (SceneCount(DurationInt(duration)) - 1) * SceneSeconds
    ensures (duration.None? || duration.value == 0) ==> SceneCount(DurationInt(duration)) == 8
  {
  }

  /** For a fixed video, distinct lengths are cached under distinct keys. */
  lemma StoryboardKeySeparatesDurations(id: string, d1: int, d2: int)
    requires StoryboardKey(id, d1) == StoryboardKey(id, d2)
    ensures d1 == d2
  {
    assert StoryboardKey(id, d1) == ("prompt_shorts_" + id + "_") + IntToString(d1);
    assert StoryboardKey(id, d2) == ("prompt_shorts_" + id + "_") + IntToString(d2);
    CancelPrefix("prompt_shorts_" + id + "_", IntToString(d1), IntToString(d2));
    IntToStringInjective(d1, d2);
  }

  /** A cache hit answers without the model: any two models agree. */
  lemma StoryboardHitIgnoresModel(geminiKey: string, cache: map<string, string>, v: Video,
                                  duration: Option<int>,
                                  m1: StoryboardRequest -> Result<string>,
                                  m2: StoryboardRequest -> Result<string>)
    requires var key := StoryboardKey(StoryboardId(v), DurationInt(duration));
      key in cache && cache[key] != ""
    ensures GenerateVideoPrompt(geminiKey, cache, v, duration, m1)
         == GenerateVideoPrompt(geminiKey, cache, v, duration, m2)
  {
  }

  /** A long answer is served from the cache next time; a short one is asked
      for again. */
  lemma StoryboardRepeat(geminiKey: string, cache: map<string, string>, v: Video,
                         duration: Option<int>,
                         model: StoryboardRequest -> Result<string>,
                         later: StoryboardRequest -> Result<string>)
    requires GenerateVideoPrompt(geminiKey, cache, v, duration, model).Ok?
    ensures var (text, cache') := GenerateVideoPrompt(geminiKey, cache, v, duration, model).value;
      |text| > MinCachedLength ==>
        GenerateVideoPrompt(geminiKey, cache', v, duration, later) == Ok((text, cache'))
  {
  }

  // ---------------------------------------------------------------------
  // Script: generateDetailedVideoScript(videoData, targetDuration = 15)
  // ---------------------------------------------------------------------

  /** What the script prompt is built from: the video and the target length
      as interpolated into the text. */
  datatype ScriptRequest = ScriptRequest(video: Video, targetDuration: string)

  const DefaultScriptSeconds: int := 15

  const ScriptFailedPrefix: string := "비디오 스크립트 생성 실패: "

  /** `${targetDuration}`: a number in decimal, anything else as JavaScript
      shows it. */
  function Shown(d: DurationValue): string
  {
    match d
    case Seconds(n) => IntToString(n)
    case NonNumeric(s) => s
  }

  /** The target length, with the default for an omitted argument. */
  function TargetDuration(d: Option<DurationValue>): (r: DurationValue)
    ensures d.None? ==> r == Seconds(DefaultScriptSeconds)
    ensures d.Some? ==> r == d.value
  {
    d.GetOr(Seconds(DefaultScriptSeconds))
  }

  /** `script_video_${videoId}_${targetDuration}s`: the id as is, with no
      title fallback. */
  function ScriptKey(id: string, shown: string): string
  {
    "script_video_" + id + "_" + shown + "s"
  }

  /** `generateDetailedVideoScript`: every answer, even an empty one, is
      cached; a failure carries the model's message. */
  function GenerateDetailedVideoScript(geminiKey: string, cache: map<string, string>, v: Video,
                                       target: Option<DurationValue>,
                                       model: ScriptRequest -> Result<string>): (r: Result<(string, map<string, string>)>)
    ensures geminiKey == "" ==> r == Err(MissingGeminiKey)
    ensures geminiKey != "" ==>
      var shown := Shown(TargetDuration(target));
      var key := ScriptKey(v.id, shown);
      if key in cache && cache[key] != "" then r == Ok((cache[key], cache))
      else match model(ScriptRequest(v, shown))
        case Err(msg) => r == Err(ScriptFailedPrefix + msg)
        case Ok(text) => r == Ok((text, cache[key := text]))
  {
    if geminiKey == "" then Err(MissingGeminiKey)
    else
      var shown := Shown(TargetDuration(target));
      var key := ScriptKey(v.id, shown);
      if key in cache && cache[key] != "" then Ok((cache[key], cache))
      else
        match model(ScriptRequest(v, shown))
        case Err(msg) => Err(ScriptFailedPrefix + msg)
        case Ok(text) => Ok((text, cache[key := text]))
  }

  /** A non-empty script is served from the cache next time. */
  lemma ScriptRepeat(geminiKey: string, cache: map<string, string>, v: Video,
                     target: Option<DurationValue>,
                     model: ScriptRequest -> Result<string>,
                     later: ScriptRequest -> Result<string>)
    requires GenerateDetailedVideoScript(geminiKey, cache, v, target, model).Ok?
    ensures var (text, cache') := GenerateDetailedVideoScript(geminiKey, cache, v, target, model).value;
      text != "" ==> GenerateDetailedVideoScript(geminiKey, cache', v, target, later) == Ok((text, cache'))
  {
  }

  /** For a fixed video, distinct numeric lengths are cached under distinct
      keys. */
  lemma ScriptKeySeparatesDurations(id: string, d1: int, d2: int)
    requires ScriptKey(id, IntToString(d1)) == ScriptKey(id, IntToString(d2))
    ensures d1 == d2
  {
    var p := "script_video_" + id + "_";
    assert ScriptKey(id, IntToString(d1)) == p + IntToString(d1) + "s";
    assert ScriptKey(id, IntToString(d2)) == p + IntToString(d2) + "s";
    CancelSuffix(p + IntToString(d1), p + IntToString(d2), "s");
    CancelPrefix(p, IntToString(d1), IntToString(d2));
    IntToStringInjective(d1, d2);
  }

  /** Storyboards and scripts share the cache but never a key. */
  lemma StoryboardAndScriptKeysDiffer(id1: string, d: int, id2: string, shown: string)
    ensures StoryboardKey(id1, d) != ScriptKey(id2, shown)
  {
    assert StoryboardKey(id1, d)[0] == 'p';
    assert ScriptKey(id2, shown)[0] == 's';
  }

  /** Two videos without an id share one script cache entry per length,
      although their storyboards are told apart by title. */
  lemma IdlessVideosShareScripts(v1: Video, v2: Video, shown: string)
    requires v1.id == "" && v2.id == ""
    ensures ScriptKey(v1.id, shown) == ScriptKey(v2.id, shown)
    ensures StoryboardId(v1) == CollapseSpaces(v1.title)
  {
  }

  // ---------------------------------------------------------------------
  // Analysis: analyzeWithAI(videos, region, filterContext)
  // ---------------------------------------------------------------------

  /** What the analysis prompt is built from. */
  datatype AnalysisRequest = AnalysisRequest(region: string, filterContext: string, summary: string)

  /** Only this many videos, and this many tags of each, are summarised. */
  const AnalysedVideos: int := 15
  const SummaryTags: int := 3

  const AnalysisKeyMissing: string := "<p>AI API 키가 서버에 설정되지 않았습니다. .env 파일을 확인해주세요.</p>"
  const AnalysisKeyInvalid: string := "<p>API 키가 유효하지 않습니다. 설정을 확인해주세요.</p>"
  const AnalysisRateLimited: string := "<p>AI 요청 한도가 초과되었습니다. 잠시 후 다시 시도해주세요.</p>"

  /** One summary line:
      `- [Shorts|Video] title (views회, 반응률: rate%) / 태그: t1, t2, t3`. */
  function SummaryLine(v: Video): string
  {
    "- [" + (if v.isShort then "Shorts" else "Video") + "] " + v.title
      + " (" + v.viewCountFmt + "회, 반응률: " + v.stats.engagementRate + "%) / 태그: "
      + Join(Prefix(v.tags, SummaryTags), ", ")
  }

  function SummaryLines(vs: seq<Video>): (r: seq<string>)
    ensures |r| == |vs|
    ensures forall i :: 0 <= i < |vs| ==> r[i] == SummaryLine(vs[i])
  {
    seq(|vs|, i requires 0 <= i < |vs| => SummaryLine(vs[i]))
  }

  /** The data block of the prompt: one line per video of the first fifteen. */
  function Summary(videos: seq<Video>): string
  {
    Join(SummaryLines(Prefix(videos, AnalysedVideos)), "\n")
  }

  /** The HTML shown for a model error: an invalid key and the rate limit
      (checked in that order) have their own messages. */
  function AnalysisErrorHtml(msg: string): (r: string)
    ensures Contains(msg, "API_KEY_INVALID") ==> r == AnalysisKeyInvalid
    ensures !Contains(msg, "API_KEY_INVALID") && Contains(msg, "429") ==> r == AnalysisRateLimited
    ensures !Contains(msg, "API_KEY_INVALID") && !Contains(msg, "429") ==>
      r == "<p>AI 분석 중 오류가 발생했습니다. (" + msg + ")</p>"
  {
    if Contains(msg, "API_KEY_INVALID") then AnalysisKeyInvalid
    else if Contains(msg, "429") then AnalysisRateLimited
    else "<p>AI 분석 중 오류가 발생했습니다. (" + msg + ")</p>"
  }

  /** `analyzeWithAI`: never throws; every failure becomes an HTML message. */
  function AnalyzeWithAI(geminiKey: string, videos: seq<Video>, region: string, filterContext: string,
                         model: AnalysisRequest -> Result<string>): (r: string)
    ensures geminiKey == "" ==> r == AnalysisKeyMissing
    ensures geminiKey != "" ==>
      match model(AnalysisRequest(region, filterContext, Summary(videos)))
      case Ok(text) => r == text
      case Err(msg) => r == AnalysisErrorHtml(msg)
  {
    if geminiKey == "" then AnalysisKeyMissing
    else
      match model(AnalysisRequest(region, filterContext, Summary(videos)))
      case Ok(text) => text
      case Err(msg) => AnalysisErrorHtml(msg)
  }

  /** Videos after the fifteenth never reach the model. */
  lemma AnalysisSeesFirstFifteen(videos: seq<Video>, more: seq<Video>)
    requires |videos| >= AnalysedVideos
    ensures Summary(videos + more) == Summary(videos)
  {
    assert Prefix(videos + more, AnalysedVideos) == Prefix(videos, AnalysedVideos);
  }

  /** Each of the first fifteen titles appears in the summary. */
  lemma SummaryMentionsTitle(videos: seq<Video>, k: int)
    requires 0 <= k < |videos| && k < AnalysedVideos
    ensures Contains(Summary(videos), videos[k].title)
  {
    var lines := SummaryLines(Prefix(videos, AnalysedVideos));
    JoinContainsEach(lines, "\n", k);
    assert lines[k] == SummaryLine(videos[k]);
    LineMentionsTitle(videos[k]);
    ContainsTransitive(Summary(videos), lines[k], videos[k].title);
  }

  /** A summary line holds its video's title. */
  lemma LineMentionsTitle(v: Video)
    ensures Contains(SummaryLine(v), v.title)
  {
    var before := "- [" + (if v.isShort then "Shorts" else "Video") + "] ";
    var after := " (" + v.viewCountFmt + "회, 반응률: " + v.stats.engagementRate + "%) / 태그: "
      + Join(Prefix(v.tags, SummaryTags), ", ");
    assert SummaryLine(v) == before + v.title + after;
    ContainsIff(v.title, v.title);
    assert OccursAt(v.title, v.title, 0);
    ContainsInConcat(before, v.title, after, v.title);
  }
}
