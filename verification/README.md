# TrendLens core in Dafny

TrendLens lists the most popular YouTube videos of a region, extracts
keywords from their titles and tags, and asks Gemini for market analysis,
for storyboards and scripts of short-form videos, and for images of the
storyboard frames. This project models the deterministic rules under that
plumbing:

- the trend post-processing: ISO-8601 `PT#H#M#S` durations, the Shorts
  threshold, the zero-view engagement guard, the date cut-off and the sort by
  views;
- the cache keys and cache policies of the trends, categories, storyboard and
  script caches;
- the storyboard length arithmetic (`frameCount`, `durationInt`,
  `sceneCount`);
- the service's keyword extraction and the NLP processor's frequency
  counting;
- the server's image collection loop and its error messages;
- the HTTP routes: defaults, 400 validation, 500 envelopes and the order of
  the generator calls;
- the browser's filter, fence stripping, payload parsing, quota
  classification, "copy all" text, export rows, and the sequential image
  generation loop.

YouTube, Gemini, `fetch` and `JSON.parse` are function parameters (oracles).
Every cache is a `map` threaded through as a value, with no expiry.
Number formatting (`toFixed(2)`, `toLocaleString`) comes in as a formatter
parameter. The date cut-off is an integer instant.

Modules and files:

| file | module | source |
|---|---|---|
| wrappers.dfy | `Wrappers` | `Option`, `Result` |
| text.dfy | `Text` | JavaScript string rules: `\s`, ASCII `toLowerCase`, `includes`, `join`, `parseInt`, regex runs |
| seqs.dfy | `Seqs` | `filter`, `slice(0, n)`, the stable descending sort |
| tally.dfy | `Tally` | a `Map` used as a counter, in insertion order |
| videos.dfy | `Videos` | the analysed video record |
| duration.dfy | `Duration` | `parseDuration`, `calculateEngagement`, the storyboard length arithmetic |
| trends.dfy | `Trends` | `getTrends`, `getVideoCategories` |
| keywords.dfy | `ServiceKeywords` | `extractWords`, `isStopWord`, `extractKeywords` of the service |
| keywordweights.dfy | `KeywordWeights` | the weight a keyword reaches in `extractKeywords`, stated without the counting map |
| nlp.dfy | `Nlp` | `NlpProcessor.extractKeywords` |
| prompts.dfy | `Prompts` | `generateVideoPrompt`, `generateDetailedVideoScript`, `analyzeWithAI` |
| images.dfy | `Images` | `generateImage` |
| server.dfy | `Server` | the Express routes |
| client.dfy | `Client` | `applyFilters`, fence stripping, quota check, copy-all, `exportData` |
| imageloop.dfy | `ImageLoop` | `handleImageGeneration` |

The storyboard length is the one the code computes. The prompt route's
comment (server.js:87) calls the frame count roughly `duration / 3`. For the
default 15-second request the route computes `frameCount = ceil(15 / 3) = 5`
and passes that number to `generateVideoPrompt` as the *duration*. The
generator then asks for `ceil(5 / 5) = 1` scene, for a 5-second video, and
caches it under `..._5`. `Server.DefaultLengthAsksForOneScene` states this.

The listing that the rest of the model builds on uses the corrected duration
parser (see "## Findings"). `Trends.GetTrendsAsWritten` and
`Server.TrendsRouteAsWritten` keep the code's behaviour next to it.

## Model

| member | source | states |
|---|---|---|
| Duration.ParseDuration | src/services/youtubeService.js:22-28 | the corrected parser: agrees with the code whenever the code returns, and gives 0 for a text without `PT` instead of throwing |
| Duration.ParseDurationThrowsIff | src/services/youtubeService.js:22-28 | the code throws (`match` is `null`) exactly when the text contains no `PT` |
| Duration.LiveBroadcastThrows | src/services/youtubeService.js:22-28 | a live broadcast's `P0D` makes the code throw, while the corrected parser gives 0 |
| Duration.ParseIsoDuration | src/services/youtubeService.js:22-28 | any text without `PT` followed by `PT[hH][mM][sS]` parses to `3600h + 60m + s`, with absent parts counting 0 |
| Duration.ParseOfMatch | src/services/youtubeService.js:23-27 | the captured hour, minute and second groups combine as `3600h + 60m + s` |
| Duration.Engagement | src/services/youtubeService.js:30-33 | zero views give 0; otherwise the rate times the views is 100 × (likes + comments), and it is non-negative for non-negative counts |
| Duration.FrameCount | server.js:88 | a numeric length D gives the least n with 3n ≥ D (`Math.ceil(D / 3)`); a non-numeric one gives NaN |
| Duration.DurationInt | src/services/youtubeService.js:206-211 | a missing, zero or NaN length becomes 40; any other is kept; the result is never 0 |
| Duration.SceneCount | src/services/youtubeService.js:212 | the least n with 5n ≥ durationInt, at least 1 for a positive length |
| Trends.CountOf | src/services/youtubeService.js:113-115 | a missing or empty count is 0 |
| Trends.CountOfDecimal | src/services/youtubeService.js:113-115 | a count written in decimal reads back as itself |
| Trends.Thumbnail | src/services/youtubeService.js:125 | the medium thumbnail when present and non-empty, else the default one |
| Trends.Analyze | src/services/youtubeService.js:111-141 | a video is a Short iff it lasts at most 60 s; zero views show engagement 0; id and publication instant are carried over |
| Trends.AnalyzeIsoDuration | src/services/youtubeService.js:118-119 | the analysed length of a `PT#H#M#S` item is `3600h + 60m + s`, and the Short flag is that length ≤ 60 |
| Trends.ListVideos | src/services/youtubeService.js:104-143 | the list is sorted by views, non-increasing; it holds only videos published at or after the cut-off; and it is a permutation of the analysed in-window items |
| Trends.RequestFor | src/services/youtubeService.js:75-85 | the request carries the region, and a category filter exactly when the id is neither empty nor `"0"` |
| Trends.GetTrends | src/services/youtubeService.js:67-153 | a missing API key throws even on a cache hit; a failed fetch on a miss throws the fixed message; on success the cache holds the key, is unchanged on a hit and gains the fetched items (or `[]`) on a miss, the videos are the listing of the cached items, `meta.totalResults` is their number, and the keywords are those of the listed videos; with a key, a cache hit or a successful fetch always succeeds |
| Trends.TrendsCacheHitIgnoresFetch | src/services/youtubeService.js:68-73 | on a cache hit the outcome does not depend on the fetch |
| Trends.TrendsRepeatFromCache | src/services/youtubeService.js:68-93 | a successful call, repeated with the cache it leaves, gives the same data without fetching |
| Trends.TrendsKeyInjective | src/services/youtubeService.js:68 | for regions and periods without `_`, equal trends keys mean equal region, period and category part |
| Trends.AllCategoriesTwoKeys | src/services/youtubeService.js:68-85 | category `"0"` and the empty category send the same request but are cached under two keys |
| Trends.AnalyzeAllAsWritten | src/services/youtubeService.js:106-141 | the code's mapping throws exactly when the duration of some item throws, and when it finishes it yields the corrected analysis |
| Trends.LiveItemFailsListing | src/services/youtubeService.js:106-119 | one `P0D` item makes the whole mapping throw in the code, while the corrected analysis lists it as a 0-second Short |
| Trends.GetTrendsAsWritten | src/services/youtubeService.js:67-153 | the code's listing fails exactly as the corrected one does, and also with the parser's TypeError exactly when some in-window cached item fails to parse; that failure keeps the freshly cached items; when it succeeds it returns the corrected listing |
| Trends.LiveItemFailsTrends | src/services/youtubeService.js:92-119 | a cached in-window `P0D` item makes the code's listing throw, while the corrected listing succeeds and shows the item as a 0-second Short |
| Trends.GetVideoCategories | src/services/youtubeService.js:46-65 | a cached list (even an empty one) is returned as is; a fetched list is cached; any failure gives `[]` and caches nothing |
| Trends.CategoriesCachedOnSuccessOnly | src/services/youtubeService.js:47-64 | after a success the next call is served from the cache; after a failure the next call fetches again |
| Trends.CategoriesKeyInjective | src/services/youtubeService.js:47 | distinct regions have distinct category keys |
| ServiceKeywords.ExtractWords | src/services/youtubeService.js:494-502 | every word is longer than one character, lower-case, and made only of `\w`, Hangul syllables and Hangul jamo |
| ServiceKeywords.ExtractWordsSplits | src/services/youtubeService.js:494-502 | an empty text has no words; otherwise the lower-cased text, with the characters outside `\w`, `\s` and Hangul removed, splits into whitespace gaps and maximal non-space words, that split is the only one, and the result is its words longer than one character |
| ServiceKeywords.WordIncrements | src/services/youtubeService.js:463-467 | one increment of `delta` for each counted word of the list, in order and with none missing: the k-th increment is for the k-th word that is longer than one character and not a stop word |
| ServiceKeywords.AllIncrements | src/services/youtubeService.js:457-480 | every increment is for a counted word occurring in some video's title or tags |
| KeywordWeights.WordIncrementsSum | src/services/youtubeService.js:462-467 | the title steps add `delta` to a counted word once per occurrence among the words, and nothing to any other word |
| KeywordWeights.TagIncrementsSum | src/services/youtubeService.js:470-478 | the tag steps add `delta` to a counted word once per occurrence among the words of all tags, and nothing to any other word |
| KeywordWeights.VideoIncrementsSum | src/services/youtubeService.js:459-478 | one video adds to a counted word its view factor times (twice its title occurrences plus its tag occurrences), and nothing to other words |
| KeywordWeights.AllIncrementsSum | src/services/youtubeService.js:457-480 | the increments of all videos total, for every word, the sum of each video's weight for it |
| KeywordWeights.KeywordTotals | src/services/youtubeService.js:451-491 | every reported keyword weighs exactly its total weight over the first 20 videos |
| KeywordWeights.LeftOutIsNoHeavier | src/services/youtubeService.js:483-486 | a counted word that is not reported has a total weight over the first 20 videos no greater than that of any reported keyword |
| ServiceKeywords.ExtractKeywords | src/services/youtubeService.js:451-492 | the 15 heaviest words of the first 20 videos, or all of them when fewer: weights non-increasing, texts distinct, none a stop word, each from a title or tag of those videos and weighing the total of its increments, and no word left out heavier than one reported |
| ServiceKeywords.TopOfTally | src/services/youtubeService.js:483-486 | sorting the tally and taking 15 keeps `min(15, n)` distinct entries, each weighing the total of its increments, with no left-out entry heavier than a kept one |
| ServiceKeywords.KeptWeights | src/services/youtubeService.js:457-485 | every entry taken from the tally weighs the total of the increments for its word |
| ServiceKeywords.KeptFromVideos | src/services/youtubeService.js:455-489 | every reported word is counted and comes from a title or tag of one of the first 20 videos |
| ServiceKeywords.KeptEntryFromItems | src/services/youtubeService.js:483-489 | every reported keyword was counted by some increment |
| ServiceKeywords.DistinctAfterSort | src/services/youtubeService.js:483-485 | sorting and truncating keep the keyword texts distinct |
| ServiceKeywords.OnlyFirstTwentyCount | src/services/youtubeService.js:455 | videos after the twentieth do not change the result |
| Nlp.Tokens | src/utils/nlpProcessor.js:10-18 | the tokens are the maximal runs of Hangul syllables, ASCII letters and digits of the text: each is a non-empty run, the text is the tokens woven with separating gaps of other characters, and no other list of runs splits the text that way |
| Text.RunsSpec | src/utils/nlpProcessor.js:17 | the runs found in a text are non-empty stretches of matching characters, the gaps around them hold none and are non-empty between two runs, and weaving gaps and runs gives back the text |
| Text.RunsOfWeave | src/utils/nlpProcessor.js:17 | weaving runs with separating gaps and searching again for runs gives back exactly those runs |
| Nlp.TokensOfTitleAndTags | src/utils/nlpProcessor.js:17-18 | the tokens are the title's maximal runs followed by those of each tag in order: the joining spaces only separate |
| Nlp.MissingTagsCountAsEmpty | src/utils/nlpProcessor.js:17 | a missing `tags` gives the same tokens as an empty list: those of the title alone |
| Nlp.DocWords | src/utils/nlpProcessor.js:20-25 | every counted word is lower-case, at least two characters long, not a stop word and not all digits |
| Nlp.ExtractKeywords | src/utils/nlpProcessor.js:13-35 | the `limit` most frequent words, or all when fewer (a negative `limit` counts from the back as `slice` does): frequencies non-increasing, entries taken from the frequency map, and no word left out more frequent than one reported |
| Nlp.DefaultLimitKeepsTwenty | src/utils/nlpProcessor.js:13-33 | without a `limit`, the twenty most frequent words are reported, or all when fewer |
| Seqs.TopOfSortDesc | src/utils/nlpProcessor.js:32-33 | `slice(0, n)` of the descending sort has the clamped length, takes elements of the input, and leaves out none heavier than one it keeps |
| Nlp.SumForOnes | src/utils/nlpProcessor.js:27 | adding one per occurrence totals the number of occurrences |
| Nlp.FrequenciesSpec | src/utils/nlpProcessor.js:14-29 | the frequency map's keys are the counted words in order of first appearance, distinct, each with its number of occurrences |
| Nlp.ReportedEntry | src/utils/nlpProcessor.js:20-34 | a reported entry is an admissible lower-case word whose weight is its number of occurrences |
| Nlp.ExtractKeywordsEntries | src/utils/nlpProcessor.js:1-34 | the reported texts are distinct, admissible, lower-case, and weigh their number of occurrences |
| Nlp.TiesInFirstAppearanceOrder | src/utils/nlpProcessor.js:27-33 | the reported entries of any one weight are a prefix of the words of that weight in first-appearance order |
| Prompts.StoryboardId | src/services/youtubeService.js:214 | a non-empty id is used as is; otherwise the title with whitespace runs collapsed, which contains no whitespace |
| Prompts.GenerateVideoPrompt | src/services/youtubeService.js:206-288 | a missing key throws; a non-empty cached text is returned without the model; otherwise the model is asked for `sceneCount` scenes of a `durationInt` video, a failure throws the fixed message, and only texts longer than 50 characters are cached |
| Prompts.StoryboardSceneDemand | src/services/youtubeService.js:211-212 | the scenes cover the length in 5-second steps with no spare scene; a missing or zero length asks for 8 scenes |
| Prompts.StoryboardKeySeparatesDurations | src/services/youtubeService.js:215 | for one video, distinct `durationInt` values have distinct keys |
| Prompts.StoryboardHitIgnoresModel | src/services/youtubeService.js:216-221 | on a cache hit the result does not depend on the model |
| Prompts.StoryboardRepeat | src/services/youtubeService.js:276-283 | a text longer than 50 characters is served from the cache on the next call |
| Prompts.TargetDuration | src/services/youtubeService.js:293 | an omitted target length is 15 seconds |
| Prompts.GenerateDetailedVideoScript | src/services/youtubeService.js:293-389 | a missing key throws; a non-empty cached script is returned; otherwise a model failure throws with the model's message appended, and any answer is cached under `script_video_<id>_<D>s` |
| Prompts.ScriptRepeat | src/services/youtubeService.js:298-383 | a non-empty script is served from the cache on the next call |
| Prompts.ScriptKeySeparatesDurations | src/services/youtubeService.js:299 | for one id, distinct numeric lengths have distinct script keys |
| Prompts.StoryboardAndScriptKeysDiffer | src/services/youtubeService.js:299 | no script key equals a storyboard key (`prompt_shorts_…`), although both share one cache |
| Prompts.IdlessVideosShareScripts | src/services/youtubeService.js:298-299 | two videos without an id share one script entry per length, while their storyboards are keyed by title |
| Prompts.SummaryLines | src/services/youtubeService.js:162-164 | one summary line per analysed video, in order |
| Prompts.AnalysisErrorHtml | src/services/youtubeService.js:192-203 | `API_KEY_INVALID` maps to the invalid-key text, otherwise `429` to the rate-limit text, otherwise the generic text with the message |
| Prompts.AnalyzeWithAI | src/services/youtubeService.js:155-204 | a missing key gives the fixed HTML; otherwise the model's text, or the mapped error HTML: the function never throws |
| Prompts.AnalysisSeesFirstFifteen | src/services/youtubeService.js:161 | videos after the fifteenth do not change the prompt |
| Prompts.SummaryMentionsTitle | src/services/youtubeService.js:161-164 | each of the first fifteen titles appears in the prompt's summary |
| Images.FirstInline | src/services/youtubeService.js:421 | a part with inline data is found exactly when one exists, and it is the first such part |
| Images.ImagesOf | src/services/youtubeService.js:409-431 | at most one image per prompt |
| Images.Collect | src/services/youtubeService.js:406-431 | the loop succeeds exactly when no request fails (throws, or answers a first candidate without content or parts), and then yields the images in prompt order; otherwise it ends with the message of the first failing request |
| Images.CollectLoop | src/services/youtubeService.js:406-431 | the `for … of` loop computes the reference collection |
| Images.ImageErrorMessage | src/services/youtubeService.js:439-448 | `API_KEY_INVALID` maps to the invalid-key message, otherwise `404` or `not found` to the missing-model message, otherwise the generic prefix plus the message |
| Images.GenerateImage | src/services/youtubeService.js:394-449 | a missing key throws `API Key missing`; otherwise the first failing request's message is mapped and thrown; with no failure, the images in prompt order when there is one, else the mapped empty-result error; a success yields between 1 and `prompts.length` images |
| Images.MissingContentAborts | src/services/youtubeService.js:418-447 | a first candidate without content fails the whole batch with the mapped TypeError, even after earlier images |
| Images.NoImageMessage | src/services/youtubeService.js:433-447 | when no prompt yields an image the caller sees `이미지 생성 실패: 생성된 이미지가 없습니다.` |
| Images.ImagesOfProductive | src/services/youtubeService.js:409-431 | the images are exactly those of the prompts whose first candidate has inline data, in prompt order |
| Images.AspectRatioIgnored | src/services/youtubeService.js:394-415 | the aspect ratio in `config` does not influence the outcome |
| Server.CategoriesRoute | server.js:27-35 | the region defaults to `KR`; the route always succeeds; only the category cache can change |
| Server.TrendsRoute | server.js:38-59 | region, period and category default to `KR`, `1w`, `0`; a service error is a 500 with its message and leaves the caches alone; a success carries the listing and its `meta` |
| Server.TrendsRouteAsWritten | server.js:38-59 | over the code's listing, its error (the parser's TypeError included) is a 500 with that message, its success is the listing, and the trends cache is the one the listing leaves |
| Server.LiveItemAnswers500 | server.js:38-59 | a cached in-window `P0D` item makes the code's route answer 500 with the TypeError's message, while the corrected route succeeds |
| Server.RouteKeywordsUnchanged | server.js:43-46 | recomputing the keywords in the route returns exactly the service's data, also for an empty list |
| Server.AnalyzeRoute | server.js:62-75 | a missing or empty `videos` is the 400 `분석할 데이터가 없습니다.`, and the route never fails otherwise |
| Server.PromptRoute | server.js:78-106 | no video is a 400 with the caches unchanged; the length defaults to 15; the storyboard is asked for `ceil(D/3)`, then the script for D; the envelope echoes D; either failure is a 500 with that message |
| Server.PromptRouteRejectsBeforeModels | server.js:80-83 | without a video the 400 does not depend on either model |
| Server.StoryboardKeyPerFrameBand | server.js:88-89 | lengths with equal `ceil(D/3)` share one storyboard cache entry |
| Server.DefaultLengthAsksForOneScene | server.js:80-89 | the default 15 s request asks the generator for a 5-second storyboard of one scene |
| Server.ZeroLengthSharesStoryboardWith120 | server.js:88-89 | length 0 becomes `frameCount` 0 and then 40, the entry of lengths 118 to 120 |
| Server.ScriptFailureKeepsStoryboard | server.js:89-105 | a script failure is a 500, yet a long storyboard produced before it stays cached and answers the next request |
| Server.ImageRoute | server.js:109-124 | a missing or empty prompt array is the 400 `유효한 프롬프트 배열이 없습니다.`; the aspect ratio defaults to `1:1`; service errors are 500s with their message |
| Server.ScriptRoute | server.js:127-141 | no video is a 400; otherwise the script is the 15-second one, and any failure is the fixed 500 `Video script generation failed` |
| Server.ScriptRouteSharesDefaultEntry | server.js:135 | the script route uses the same cache entry as a 15-second prompt request |
| Client.ApplyFilters | public/js/app.js:294-307 | the result is an order-preserving subsequence; every kept video mentions the lower-cased keyword in its title or a tag and reaches the view threshold; every video meeting both is kept |
| Client.SomeTagMatchesIff | public/js/app.js:299 | `tags.some(...)` holds exactly when one lower-cased tag contains the keyword |
| Client.EmptyKeywordKeepsAll | public/js/app.js:294-304 | an empty keyword keeps every video that reaches the threshold |
| Client.UnreadableThresholdHidesAll | public/js/app.js:296-300 | a threshold `parseInt` reads as NaN hides every video |
| Client.DropLeading | public/js/app.js:502 | the opening fence and the whitespace after it are removed, leaving a suffix that starts with no whitespace; text without the fence is unchanged |
| Client.DropTrailingFence | public/js/app.js:502 | a closing fence is removed only when it ends the text |
| Client.StripFencesOfPlain | public/js/app.js:502 | text neither opening nor closing with a fence is unchanged |
| Client.StripFencesOfFenced | public/js/app.js:514 | a JSON object or array inside a fence, with or without the `json` tag and with any whitespace after it, comes out exactly |
| Client.ParsePayloads | public/js/app.js:500-522 | the storyboard is parsed first and its failure is `이미지 프롬프트 해석 실패`; then a script failure is `비디오 스크립트 해석 실패`; success exactly when both parse |
| Client.ConceptCopy | public/js/app.js:499-534 | a failed response throws its error, or `서버 오류` when it is empty; a successful one is parsed |
| Client.StoryboardParsedFirst | public/js/app.js:504-512 | an unparsable storyboard is reported whatever the script holds |
| Client.ShownMessage | public/js/app.js:542 | the shown message is never empty and is the error's own when it has one |
| Client.QuotaInContext | public/js/app.js:543 | a quota marker inside a longer message still classifies it as a quota error |
| Client.NotQuotaWithout | public/js/app.js:543 | a message without `할` or `q` is not a quota error |
| Client.QuotaVisibility | public/js/app.js:541-543 | a script-model quota error reaches the user as one; the storyboard's fixed failure message and the parse failures never do |
| Client.CopyAll | public/js/app.js:720-731 | the text starts with the image header and the global style line; without `scenes` it is the image part alone; with `scenes` (even empty) the video section follows |
| Client.CopyAllHasEveryPrompt | public/js/app.js:722-730 | every frame's full prompt, and every scene's prompt, is in the copied text |
| Client.ExportRow | public/js/app.js:438-449 | a row holds title, channel and counts as given, the rate with `%`, `Shorts` or `Video` from the flag, the tags joined by `, ` and the watch link of the id |
| Client.ExportRows | public/js/app.js:433-449 | an empty list is refused; otherwise one row per video, in order |
| Client.ExportRowRecovers | public/js/app.js:443-448 | the id, the rate and the Short flag can be read back from a row, and every tag is in its tag cell |
| Client.ExportLinksSeparateIds | public/js/app.js:448 | distinct ids give distinct links |
| ImageLoop.Outcome | public/js/app.js:791-808 | a frame shows the first image exactly when the answer is a success with a non-empty `data`; otherwise it is marked failed |
| ImageLoop.Placeholders | public/js/app.js:757-768 | exactly the given frames get a placeholder, and all are waiting |
| ImageLoop.HandleImageGeneration | public/js/app.js:744-822 | while a run is in progress a call does nothing; otherwise the placeholders, the steps and the grid are those of the reference loop, a thrown error is alerted, and the flag is always released |
| ImageLoop.AllFramesRequested | public/js/app.js:771-813 | when nothing throws, every frame is requested once, in order, each request followed by a pause |
| ImageLoop.ThrowAborts | public/js/app.js:771-818 | a throw at frame j ends the run after j requests and pauses plus the request of frame j, with that frame's error |
| ImageLoop.RunKeepsOthers | public/js/app.js:773-808 | the loop touches only the placeholders of its own frames |
| ImageLoop.EachFrameMarked | public/js/app.js:773-809 | with distinct frame numbers and no throw, each frame ends showing its own answer, whatever the others got |
| ImageLoop.ThrowLeavesSpinner | public/js/app.js:778-818 | a throw at frame j leaves that frame's spinner running and the later frames as they were |

## Left out

- HTTP, Express wiring, static serving, axios, `fetch` and the Gemini SDK are oracle parameters.
- DOM rendering, animation, the clipboard and file downloads are left out. XLSX and JSON encoding of the export rows is left out too.
- NodeCache expiry (10 minutes, 1 day, 7 days) is left out: each cache is a map without a clock.
- `getDateFromPeriod` is left out: the cut-off is an abstract integer instant, and `new Date(publishedAt)` is the item's `published` field.
- The 1-second pause of the image loop is recorded as a `Pause` step; time is not modelled.
- Duplicate frame numbers: the browser looks placeholders up by element id, so it finds the first of several equal ids. The model keys placeholders by frame number in a map, which collapses duplicates.
- `ServiceKeywords.ExtractKeywords`: the weight factor `log10(views + 1) / 6` is an abstract function of the views, and the final rounding to two decimals is left out, because both are floating point.
- `Duration.Engagement`: the rate is an exact real; `toFixed(2)` and `toLocaleString` are formatter parameters.
- `Trends.CountOf`: a count string that `parseInt` reads as NaN is taken as 0. YouTube sends decimal digits, for which `Trends.CountOfDecimal` gives the exact value.
- `Text.Lower` lowercases ASCII letters only. This is exact for the NLP tokens, which are ASCII or caseless Hangul. The service keywords and the browser filter are also lowercased this way, so non-ASCII upper-case letters in titles or tags are not modelled.
- JavaScript `\w` and `\s` are modelled for the BMP code points listed in `Text`; characters outside the BMP are not.
- Request fields that are `null`, booleans or fractional numbers are left out. A `duration` is a whole number or a non-numeric value shown as text.
- A video's `title` is always a string here; a missing title is left out. The code mostly tolerates one: `extractWords` returns no words for it (src/services/youtubeService.js:495), the NLP processor reads the text `undefined` (src/utils/nlpProcessor.js:17), and the prompt templates print `undefined`. It throws only where the title is used as a string: the prompt cache key when the id is missing too (src/services/youtubeService.js:214) and the browser's keyword filter (public/js/app.js:299).
- `Duration.ParseDuration`: a duration with a day part, such as `P1DT2H`, has no `PT` and reads as 0 seconds, not as its length, so such a video is classed as a Short. The code throws on it instead; days are parsed by neither.
- `Prompts.GenerateDetailedVideoScript`: a video's `id` is a string in which `""` stands for a missing id as well as an empty one. The code's script key reads `script_video_undefined_…` for a missing id and `script_video__…` for an empty one; the model uses the second for both, so `Prompts.IdlessVideosShareScripts` also joins a missing-id video with an empty-id one, which the code keeps apart.
- `Trends.GetTrends`: analyses items with the corrected duration parser, so an in-window item without `PT` is listed instead of failing the call; `Trends.GetTrendsAsWritten` is the code's behaviour.
- `Server.TrendsRoute`: built on `Trends.GetTrends`, so it does not answer 500 for an in-window item without `PT`; `Server.TrendsRouteAsWritten` does.
- The TypeError messages (`Cannot read properties of null (reading '1')` and the like) use V8's wording; only their being passed on matters to the model.
- `Prompts.GenerateVideoPrompt` and `Prompts.GenerateDetailedVideoScript` keep only the numbers interpolated into the prompt text: the length, the scene count and the target length. The prose of the templates is left out.
- `Server.AnalyzeRoute`: the route's 500 (`AI Analysis failed`) is not modelled, because `analyzeWithAI` catches every model error and never throws.
- `JSON.parse` is an oracle returning `None` when it throws. The header line that counts frames and scenes after parsing is left out.
- The model does not cover the logger, the build configuration, the keyword cloud's font sizes or the compact number formatting.

## Findings

| source | as written | input that shows it | evidently intended | confidence | as-written member | corrected member |
|---|---|---|---|---|---|---|
| src/services/youtubeService.js:22-28 | `parseDuration` reads `match[1]` from the result of `duration.match(/PT…/)` without checking for `null`. `getTrends` maps every in-window item through it after caching the items, so one item whose duration has no `PT` throws a TypeError and the whole trends request fails with a 500 (`Trends.GetTrendsAsWritten`, `Server.TrendsRouteAsWritten`) | a live broadcast's duration `P0D` | a live broadcast counts as 0 seconds, and the other videos are still listed | not executed | Server.LiveItemAnswers500 | Duration.ParseDuration |
