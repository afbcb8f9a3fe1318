/** The browser's text rules: the list filter, the fence stripping and
    parsing of the generated prompts, the quota classification of errors,
    the "copy all" text and the export rows. */
module Client {
  import opened Wrappers
  import opened Text
  import opened Seqs
  import opened Videos
  import Server
  import Prompts

  // ---------------------------------------------------------------------
  // applyFilters
  // ---------------------------------------------------------------------

  /** `tags.some(tag => tag.toLowerCase().includes(keyword))`. */
  predicate SomeTagMatches(tags: seq<string>, keyword: string)
  {
    |tags| > 0 && (Contains(Lower(tags[0]), keyword) || SomeTagMatches(tags[1..], keyword))
  }

  /** The title or a tag mentions the (lower-cased) keyword. */
  predicate MentionsKeyword(v: Video, keyword: string) {
    Contains(Lower(v.title), keyword) || SomeTagMatches(v.tags, keyword)
  }

  /** The filter's predicate. `minViews` is `None` for `NaN`, against which
      every comparison is false. */
  predicate Passes(v: Video, keyword: string, minViews: Option<int>) {
    MentionsKeyword(v, keyword) && minViews.Some? && v.stats.views >= minViews.value
  }

  /** `applyFilters` over the keyword box and the view-count slider value. */
  function ApplyFilters(videos: seq<Video>, keywordInput: string, minViewsInput: string): (r: seq<Video>)
    ensures IsSubsequence(r, videos)
    ensures forall i :: 0 <= i < |r| ==>
      MentionsKeyword(r[i], Lower(keywordInput)) && ParseInt(minViewsInput).Some?
      && r[i].stats.views >= ParseInt(minViewsInput).value
    ensures forall i :: 0 <= i < |videos| && Passes(videos[i], Lower(keywordInput), ParseInt(minViewsInput)) ==>
      videos[i] in r
  {
    Filter(videos, (v: Video) => Passes(v, Lower(keywordInput), ParseInt(minViewsInput)))
  }

  /** `some` holds exactly when one tag mentions the keyword. */
  lemma {:induction false} SomeTagMatchesIff(tags: seq<string>, keyword: string)
    ensures SomeTagMatches(tags, keyword) <==> exists k :: 0 <= k < |tags| && Contains(Lower(tags[k]), keyword)
  {
    if |tags| > 0 {
      SomeTagMatchesIff(tags[1..], keyword);
      if exists k :: 0 <= k < |tags[1..]| && Contains(Lower(tags[1..][k]), keyword) {
        var k :| 0 <= k < |tags[1..]| && Contains(Lower(tags[1..][k]), keyword);
        assert tags[k + 1] == tags[1..][k];
      }
      if exists k :: 0 <= k < |tags| && Contains(Lower(tags[k]), keyword) {
        var k :| 0 <= k < |tags| && Contains(Lower(tags[k]), keyword);
        if k > 0 {
          assert tags[1..][k - 1] == tags[k];
        }
      }
    }
  }

  /** Every text contains the empty keyword. */
  lemma ContainsEmpty(s: string)
    ensures Contains(s, "")
  {
    assert StartsWith(s, "");
  }

  /** With an empty keyword box only the view threshold filters. */
  lemma EmptyKeywordKeepsAll(videos: seq<Video>, minViewsInput: string, n: int)
    requires ParseInt(minViewsInput) == Some(n)
    requires forall i :: 0 <= i < |videos| ==> videos[i].stats.views >= n
    ensures ApplyFilters(videos, "", minViewsInput) == videos
  {
    forall i | 0 <= i < |videos| ensures Passes(videos[i], Lower(""), ParseInt(minViewsInput)) {
      ContainsEmpty(Lower(videos[i].title));
    }
    FilterAll(videos, (v: Video) => Passes(v, Lower(""), ParseInt(minViewsInput)));
  }

  /** A threshold `parseInt` cannot read (`NaN`) hides every video. */
  lemma UnreadableThresholdHidesAll(videos: seq<Video>, keywordInput: string, minViewsInput: string)
    requires ParseInt(minViewsInput).None?
    ensures ApplyFilters(videos, keywordInput, minViewsInput) == []
  {
  }

  // ---------------------------------------------------------------------
  // Fence stripping and parsing of the generated texts
  // ---------------------------------------------------------------------

  const Fence: string := "```"
  const JsonFence: string := "```json"

  /** Drops `p` and the whitespace after it when the text starts with `p`
      (the first two `replace` calls). */
  function DropLeading(s: string, p: string): (r: string)
    ensures StartsWith(s, p) ==> |r| <= |s| - |p| && r == s[|s| - |r|..]
    ensures StartsWith(s, p) ==> |r| == 0 || !IsSpace(r[0])
    ensures !StartsWith(s, p) ==> r == s
  {
    if StartsWith(s, p) then
      var n := |p| + RunLen(s[|p|..], IsSpace);
      s[n..]
    else s
  }

  /** `replace(/```$/, '')`. */
  function DropTrailingFence(s: string): (r: string)
    ensures EndsWith(s, Fence) ==> r + Fence == s
    ensures !EndsWith(s, Fence) ==> r == s
  {
    if EndsWith(s, Fence) then s[..|s| - 3] else s
  }

  /** The three replacements, in order. */
  function StripFences(s: string): string
  {
    DropTrailingFence(DropLeading(DropLeading(s, JsonFence), Fence))
  }

  /** Text neither starting nor ending with a fence is left alone. */
  lemma StripFencesOfPlain(s: string)
    requires !StartsWith(s, Fence) && !EndsWith(s, Fence)
    ensures StripFences(s) == s
  {
    JsonFenceIsFence(s);
  }

  /** A text opening with the tagged fence opens with a fence. */
  lemma JsonFenceIsFence(s: string)
    ensures StartsWith(s, JsonFence) ==> StartsWith(s, Fence)
  {
    if StartsWith(s, JsonFence) {
      assert s[..3] == s[..7][..3];
    }
  }

  /** `p`, then whitespace, then text not starting with whitespace: the
      leading replacement leaves exactly the text. */
  lemma DropLeadingOf(p: string, ws: string, t: string)
    requires forall i :: 0 <= i < |ws| ==> IsSpace(ws[i])
    requires |t| == 0 || !IsSpace(t[0])
    ensures DropLeading(p + ws + t, p) == t
  {
    var s := p + ws + t;
    assert s[..|p|] == p;
    assert s[|p|..] == ws + t;
    RunLenOfConcat(ws, t, IsSpace);
    assert s[|p| + |ws|..] == t;
  }

  /** A JSON body (an object or an array) inside a fence, with or without
      the `json` tag and with any whitespace after the opening fence, comes
      out exactly. */
  lemma StripFencesOfFenced(lead: string, ws: string, body: string)
    requires lead == JsonFence || lead == Fence
    requires forall i :: 0 <= i < |ws| ==> IsSpace(ws[i])
    requires |body| > 0 && (body[0] == '{' || body[0] == '[')
    ensures StripFences(lead + ws + body + Fence) == body
  {
    var s := lead + ws + body + Fence;
    var t := body + Fence;
    assert s == lead + ws + t;
    assert t[0] == body[0];
    if lead == JsonFence {
      DropLeadingOf(JsonFence, ws, t);
    } else {
      NotJsonFence(ws, t);
      DropLeadingOf(Fence, ws, t);
    }
    assert !StartsWith(t, Fence) by {
      assert t[..3][0] == t[0];
    }
    assert t[..|body|] == body;
  }

  /** After a bare fence, whitespace or a bracket rules out the tag. */
  lemma NotJsonFence(ws: string, t: string)
    requires forall i :: 0 <= i < |ws| ==> IsSpace(ws[i])
    requires |t| > 0 && (t[0] == '{' || t[0] == '[')
    ensures !StartsWith(Fence + ws + t, JsonFence)
  {
    var s := Fence + ws + t;
    if |s| >= 7 {
      if |ws| > 0 {
        assert s[3] == ws[0];
      } else {
        assert s[3] == t[0];
      }
      assert s[..7][3] == s[3];
    }
  }

  const ImageParseFailed: string := "이미지 프롬프트 해석 실패"
  const ScriptParseFailed: string := "비디오 스크립트 해석 실패"
  const ServerError: string := "서버 오류"

  /** The two payloads of a successful `/api/generate-prompt` response are
      stripped and parsed, the storyboard first. `parseImage` and
      `parseScript` stand for `JSON.parse` (`None` when it throws). */
  function ParsePayloads<I, S>(env: Server.PromptEnvelope, parseImage: string -> Option<I>,
                               parseScript: string -> Option<S>): (r: Result<(I, S)>)
    ensures parseImage(StripFences(env.imagePrompts)).None? ==> r == Err(ImageParseFailed)
    ensures parseImage(StripFences(env.imagePrompts)).Some? && parseScript(StripFences(env.videoScript)).None? ==>
      r == Err(ScriptParseFailed)
    ensures r.Ok? <==> parseImage(StripFences(env.imagePrompts)).Some? && parseScript(StripFences(env.videoScript)).Some?
    ensures r.Ok? ==> r.value == (parseImage(StripFences(env.imagePrompts)).value,
                                  parseScript(StripFences(env.videoScript)).value)
  {
    match parseImage(StripFences(env.imagePrompts))
    case None => Err(ImageParseFailed)
    case Some(img) =>
      match parseScript(StripFences(env.videoScript))
      case None => Err(ScriptParseFailed)
      case Some(script) => Ok((img, script))
  }

  /** `handleConceptCopy` from the response on: a failed response throws its
      error (or a generic one when the error is empty), a successful one is
      parsed. */
  function ConceptCopy<I, S>(resp: Server.Response<Server.PromptEnvelope>, parseImage: string -> Option<I>,
                             parseScript: string -> Option<S>): (r: Result<(I, S)>)
    ensures resp.Failure? ==> r == Err(if resp.error == "" then ServerError else resp.error)
    ensures resp.Success? ==> r == ParsePayloads(resp.data, parseImage, parseScript)
  {
    match resp
    case Failure(_, e) => Err(if e == "" then ServerError else e)
    case Success(env) => ParsePayloads(env, parseImage, parseScript)
  }

  /** A storyboard that cannot be parsed is reported whatever the script
      holds. */
  lemma StoryboardParsedFirst<I, S>(env: Server.PromptEnvelope, parseImage: string -> Option<I>,
                                    p1: string -> Option<S>, p2: string -> Option<S>)
    requires parseImage(StripFences(env.imagePrompts)).None?
    ensures ParsePayloads(env, parseImage, p1) == Err(ImageParseFailed)
    ensures ParsePayloads(env, parseImage, p1).msg == ParsePayloads(env, parseImage, p2).msg
  {
  }

  // ---------------------------------------------------------------------
  // Quota classification
  // ---------------------------------------------------------------------

  const UnknownError: string := "알 수 없는 오류가 발생했습니다."

  /** `error.message || "알 수 없는 오류가 발생했습니다."`. */
  function ShownMessage(msg: string): (r: string)
    ensures r != ""
    ensures msg != "" ==> r == msg
  {
    if msg == "" then UnknownError else msg
  }

  /** `errorMsg.includes('할당량') || errorMsg.includes('quota')`. */
  predicate IsQuotaError(msg: string) {
    Contains(msg, "할당량") || Contains(msg, "quota")
  }

  /** A quota message inside a longer one is still recognised. */
  lemma QuotaInContext(a: string, msg: string, b: string)
    requires IsQuotaError(msg)
    ensures IsQuotaError(a + msg + b)
  {
    if Contains(msg, "할당량") {
      ContainsInConcat(a, msg, b, "할당량");
    } else {
      ContainsInConcat(a, msg, b, "quota");
    }
  }

  /** A message made of characters other than `할` and `q` is not a quota
      error. */
  lemma NotQuotaWithout(msg: string)
    requires forall i :: 0 <= i < |msg| ==> msg[i] != '할' && msg[i] != 'q'
    ensures !IsQuotaError(msg)
  {
    NotContainsFirstChar(msg, "할당량");
    NotContainsFirstChar(msg, "quota");
  }

  /** A quota failure of the script model reaches the user as a quota error,
      while the storyboard generator's fixed failure message hides it, and
      the parse failures are never quota errors. */
  lemma QuotaVisibility(modelMsg: string)
    requires IsQuotaError(modelMsg)
    ensures IsQuotaError(ShownMessage(Prompts.ScriptFailedPrefix + modelMsg))
    ensures !IsQuotaError(ShownMessage(Prompts.StoryboardFailed))
    ensures !IsQuotaError(ShownMessage(ImageParseFailed)) && !IsQuotaError(ShownMessage(ScriptParseFailed))
  {
    QuotaInContext(Prompts.ScriptFailedPrefix, modelMsg, "");
    assert Prompts.ScriptFailedPrefix + modelMsg + "" == Prompts.ScriptFailedPrefix + modelMsg;
    StoryboardFailedHasNoQuotaChar();
    NotQuotaWithout(Prompts.StoryboardFailed);
    ParseFailuresHaveNoQuotaChar();
    NotQuotaWithout(ImageParseFailed);
    NotQuotaWithout(ScriptParseFailed);
  }

  lemma StoryboardFailedHasNoQuotaChar()
    ensures forall i :: 0 <= i < |Prompts.StoryboardFailed| ==>
      Prompts.StoryboardFailed[i] != '할' && Prompts.StoryboardFailed[i] != 'q'
  {
  }

  lemma ParseFailuresHaveNoQuotaChar()
    ensures forall i :: 0 <= i < |ImageParseFailed| ==> ImageParseFailed[i] != '할' && ImageParseFailed[i] != 'q'
    ensures forall i :: 0 <= i < |ScriptParseFailed| ==> ScriptParseFailed[i] != '할' && ScriptParseFailed[i] != 'q'
  {
  }

  // ---------------------------------------------------------------------
  // Copy all
  // ---------------------------------------------------------------------

  /** One storyboard frame; `frameNumber` as the template shows it. */
  datatype Frame = Frame(frameNumber: string, shotType: string, fullPrompt: string)

  datatype GlobalConcept = GlobalConcept(stylePrompt: string, characterPrompt: string)

  datatype ImageData = ImageData(globalConcept: GlobalConcept, storyboard: seq<Frame>)

  datatype Scene = Scene(timeRange: string, sectionType: string, videoGenPrompt: string)

  const ImageHeader: string := "=== Image Generation Prompts ===\n\n"
  const VideoHeader: string := "\n\n=== Video Generation Script ===\n\n"
  const BlankLine: string := "\n\n"

  function FrameBlock(f: Frame): string {
    "[Frame " + f.frameNumber + " - " + f.shotType + "]\n" + f.fullPrompt
  }

  function SceneBlock(s: Scene): string {
    "[" + s.timeRange + " - " + s.sectionType + "]\n" + s.videoGenPrompt
  }

  function FrameBlocks(fs: seq<Frame>): (r: seq<string>)
    ensures |r| == |fs|
    ensures forall i :: 0 <= i < |fs| ==> r[i] == FrameBlock(fs[i])
  {
    seq(|fs|, i requires 0 <= i < |fs| => FrameBlock(fs[i]))
  }

  function SceneBlocks(ss: seq<Scene>): (r: seq<string>)
    ensures |r| == |ss|
    ensures forall i :: 0 <= i < |ss| ==> r[i] == SceneBlock(ss[i])
  {
    seq(|ss|, i requires 0 <= i < |ss| => SceneBlock(ss[i]))
  }

  function GlobalLine(g: GlobalConcept): string {
    "Global Style: " + g.stylePrompt + " -- " + g.characterPrompt + "\n\n"
  }

  /** The image half of the copied text. */
  function ImageText(img: ImageData): string {
    ImageHeader + GlobalLine(img.globalConcept) + Join(FrameBlocks(img.storyboard), BlankLine)
  }

  /** The copied text. `scenes` is `None` when the script has no `scenes`
      (or no script was parsed); an empty list still adds the header. */
  function CopyAll(img: ImageData, scenes: Option<seq<Scene>>): (r: string)
    ensures StartsWith(r, ImageHeader + GlobalLine(img.globalConcept))
    ensures scenes.None? ==> r == ImageText(img)
    ensures scenes.Some? ==> r == ImageText(img) + VideoHeader + Join(SceneBlocks(scenes.value), BlankLine)
  {
    var head := ImageHeader + GlobalLine(img.globalConcept);
    var text := ImageText(img);
    StartsWithMore(head, Join(FrameBlocks(img.storyboard), BlankLine), head);
    match scenes
    case None => text
    case Some(ss) =>
      StartsWithMore(text, VideoHeader, head);
      StartsWithMore(text + VideoHeader, Join(SceneBlocks(ss), BlankLine), head);
      text + VideoHeader + Join(SceneBlocks(ss), BlankLine)
  }

  /** A prefix of a text is a prefix of any extension of it. */
  lemma StartsWithMore(x: string, y: string, p: string)
    requires x == p || StartsWith(x, p)
    ensures StartsWith(x + y, p)
  {
    assert (x + y)[..|p|] == x[..|p|];
  }

  /** Every frame's full prompt, and every scene's prompt, is in the copied
      text. */
  lemma CopyAllHasEveryPrompt(img: ImageData, scenes: Option<seq<Scene>>)
    ensures forall i :: 0 <= i < |img.storyboard| ==> Contains(CopyAll(img, scenes), img.storyboard[i].fullPrompt)
    ensures scenes.Some? ==>
      forall i :: 0 <= i < |scenes.value| ==> Contains(CopyAll(img, scenes), scenes.value[i].videoGenPrompt)
  {
    var r := CopyAll(img, scenes);
    var head := ImageHeader + GlobalLine(img.globalConcept);
    var frames := Join(FrameBlocks(img.storyboard), BlankLine);
    var tail := if scenes.Some? then VideoHeader + Join(SceneBlocks(scenes.value), BlankLine) else "";
    assert r == head + frames + tail;
    forall i | 0 <= i < |img.storyboard| ensures Contains(r, img.storyboard[i].fullPrompt) {
      var f := img.storyboard[i];
      JoinContainsEach(FrameBlocks(img.storyboard), BlankLine, i);
      ContainsInConcat(head, frames, tail, FrameBlock(f));
      BlockEndsWith("[Frame " + f.frameNumber + " - " + f.shotType + "]\n", f.fullPrompt);
      ContainsTransitive(r, FrameBlock(f), f.fullPrompt);
    }
    if scenes.Some? {
      var ss := scenes.value;
      var sceneText := Join(SceneBlocks(ss), BlankLine);
      assert r == head + frames + VideoHeader + sceneText + "";
      forall i | 0 <= i < |ss| ensures Contains(r, ss[i].videoGenPrompt) {
        var s := ss[i];
        JoinContainsEach(SceneBlocks(ss), BlankLine, i);
        ContainsInConcat(head + frames + VideoHeader, sceneText, "", SceneBlock(s));
        BlockEndsWith("[" + s.timeRange + " - " + s.sectionType + "]\n", s.videoGenPrompt);
        ContainsTransitive(r, SceneBlock(s), s.videoGenPrompt);
      }
    }
  }

  /** The last part of a text occurs in it. */
  lemma BlockEndsWith(a: string, b: string)
    ensures Contains(a + b, b)
  {
    assert (a + b)[|a|..|a| + |b|] == b;
    ContainsAt(a + b, b, |a|);
  }

  // ---------------------------------------------------------------------
  // Export rows
  // ---------------------------------------------------------------------

  /** One row of the exported sheet. `date` is the locale date text, which
      the caller supplies. */
  datatype Row = Row(title: string, channel: string, views: int, likes: int, comments: int,
                     engagementRate: string, date: string, kind: string, tags: string, link: string)

  const NothingToExport: string := "No data to export."
  const WatchUrl: string := "https://www.youtube.com/watch?v="

  function ExportRow(v: Video, localeDate: string -> string): (r: Row)
    ensures r.title == v.title && r.channel == v.channelTitle
    ensures r.views == v.stats.views && r.likes == v.stats.likes && r.comments == v.stats.comments
    ensures r.engagementRate == v.stats.engagementRate + "%"
    ensures r.kind == (if v.isShort then "Shorts" else "Video")
    ensures r.tags == Join(v.tags, ", ")
    ensures r.link == WatchUrl + v.id
  {
    Row(v.title, v.channelTitle, v.stats.views, v.stats.likes, v.stats.comments,
        v.stats.engagementRate + "%", localeDate(v.publishedAt),
        if v.isShort then "Shorts" else "Video", Join(v.tags, ", "), WatchUrl + v.id)
  }

  /** `exportData`: refused for an empty list, otherwise one row per video in
      order. */
  function ExportRows(videos: seq<Video>, localeDate: string -> string): (r: Result<seq<Row>>)
    ensures videos == [] <==> r == Err(NothingToExport)
    ensures r.Ok? ==> |r.value| == |videos| && forall i :: 0 <= i < |videos| ==> r.value[i] == ExportRow(videos[i], localeDate)
  {
    if |videos| == 0 then Err(NothingToExport)
    else Ok(seq(|videos|, i requires 0 <= i < |videos| => ExportRow(videos[i], localeDate)))
  }

  /** Each row's link gives back the video's id, its rate the shown rate,
      and every tag is in its tag cell. */
  lemma ExportRowRecovers(v: Video, localeDate: string -> string)
    ensures var r := ExportRow(v, localeDate);
      StartsWith(r.link, WatchUrl) && r.link[|WatchUrl|..] == v.id &&
      EndsWith(r.engagementRate, "%") && r.engagementRate[..|r.engagementRate| - 1] == v.stats.engagementRate &&
      (r.kind == "Shorts" <==> v.isShort) &&
      forall k :: 0 <= k < |v.tags| ==> Contains(r.tags, v.tags[k])
  {
    var r := ExportRow(v, localeDate);
    assert r.link[..|WatchUrl|] == WatchUrl;
    forall k | 0 <= k < |v.tags| ensures Contains(r.tags, v.tags[k]) {
      JoinContainsEach(v.tags, ", ", k);
    }
  }

  /** Distinct ids give distinct links. */
  lemma ExportLinksSeparateIds(id1: string, id2: string)
    requires WatchUrl + id1 == WatchUrl + id2
    ensures id1 == id2
  {
    CancelPrefix(WatchUrl, id1, id2);
  }
}
