/** `generateImage`: one image request per prompt, in order, keeping the
    inline image of the first candidate when there is one; no image at all is
    an error, and every error is rethrown with a user-facing message. */
module Images {
  import opened Wrappers
  import opened Text
  import opened Seqs

  /** One part of a candidate's content; `inlineData` holds base64 data. */
  datatype Part = Part(inlineData: Option<string>)

  /** A candidate's `content`, whose `parts` may be missing. */
  datatype Content = Content(parts: Option<seq<Part>>)

  /** A candidate, whose `content` may be missing. */
  datatype Candidate = Candidate(content: Option<Content>)

  /** What one `generateContent` call yields: the message of the error it
      throws, or a response whose candidate list may be missing. */
  datatype ImageReply = Threw(msg: string) | Reply(candidates: Option<seq<Candidate>>)

  const MissingKey: string := "API Key missing"
  const NoImages: string := "생성된 이미지가 없습니다."
  const KeyInvalid: string := "API 키가 유효하지 않습니다."
  const ModelNotFound: string := "해당 모델을 찾을 수 없습니다. API 키 권한이나 모델명을 확인해주세요."
  const FailedPrefix: string := "이미지 생성 실패: "

  /** The messages of the TypeErrors thrown by `candidates[0].content.parts`
      on a candidate without content and by `parts.find` on a content
      without parts (V8's wording). */
  const NoContent: string := "Cannot read properties of undefined (reading 'parts')"
  const NoParts: string := "Cannot read properties of undefined (reading 'find')"

  /** `parts.find(p => p.inlineData)`: the inline data of the first part
      that has some. */
  function FirstInline(parts: seq<Part>): (r: Option<string>)
    ensures r.Some? <==> exists i :: 0 <= i < |parts| && parts[i].inlineData.Some?
    ensures r.Some? ==>
      exists i :: 0 <= i < |parts| && r == parts[i].inlineData &&
        forall j :: 0 <= j < i ==> parts[j].inlineData.None?
  {
    if |parts| == 0 then None
    else if parts[0].inlineData.Some? then parts[0].inlineData
    else
      var r := FirstInline(parts[1..]);
      assert forall i :: 1 <= i < |parts| ==> parts[i] == parts[1..][i - 1];
      if r.Some? then
        var i :| 0 <= i < |parts[1..]| && r == parts[1..][i].inlineData &&
          forall j :: 0 <= j < i ==> parts[1..][j].inlineData.None?;
        assert r == parts[i + 1].inlineData;
        r
      else r
  }

  /** What one request contributes to the loop: the message that ends the
      loop, or the image it adds, if any. A response without candidates adds
      nothing; a first candidate without content or parts throws. */
  function Step(reply: ImageReply): Result<Option<string>>
  {
    match reply
    case Threw(msg) => Err(msg)
    case Reply(None) => Ok(None)
    case Reply(Some(cs)) =>
      if |cs| == 0 then Ok(None)
      else
        match cs[0].content
        case None => Err(NoContent)
        case Some(Content(None)) => Err(NoParts)
        case Some(Content(Some(ps))) => Ok(FirstInline(ps))
  }

  /** The image a request contributes. */
  function ImageOf(reply: ImageReply): Option<string>
    requires Step(reply).Ok?
  {
    Step(reply).value
  }

  /** The prompt produced an image. */
  predicate Produced(gen: string -> ImageReply, p: string) {
    Step(gen(p)).Ok? && ImageOf(gen(p)).Some?
  }

  /** No request failed. */
  predicate NoneFailed(prompts: seq<string>, gen: string -> ImageReply) {
    forall i :: 0 <= i < |prompts| ==> Step(gen(prompts[i])).Ok?
  }

  /** Request `k` is the first that failed. */
  predicate FirstFailure(prompts: seq<string>, gen: string -> ImageReply, k: int) {
    0 <= k < |prompts| && Step(gen(prompts[k])).Err? &&
    forall j :: 0 <= j < k ==> Step(gen(prompts[j])).Ok?
  }

  /** The images of the prompts that produced one, in prompt order. */
  function ImagesOf(prompts: seq<string>, gen: string -> ImageReply): (r: seq<string>)
    requires NoneFailed(prompts, gen)
    ensures |r| <= |prompts|
  {
    if |prompts| == 0 then []
    else
      var rest := ImagesOf(prompts[1..], gen);
      match ImageOf(gen(prompts[0]))
      case Some(img) => [img] + rest
      case None => rest
  }

  /** The loop at the reference level: the first failure ends it with its
      message, otherwise the collected images. */
  function Collect(prompts: seq<string>, gen: string -> ImageReply): (r: Result<seq<string>>)
    ensures r.Ok? <==> NoneFailed(prompts, gen)
    ensures r.Ok? ==> r.value == ImagesOf(prompts, gen)
    ensures r.Err? ==> exists k :: FirstFailure(prompts, gen, k) && Step(gen(prompts[k])).msg == r.msg
  {
    if |prompts| == 0 then Ok([])
    else
      match Step(gen(prompts[0]))
      case Err(msg) =>
        assert FirstFailure(prompts, gen, 0);
        Err(msg)
      case Ok(found) =>
        var rest := Collect(prompts[1..], gen);
        assert forall i :: 1 <= i < |prompts| ==> prompts[i] == prompts[1..][i - 1];
        match rest
        case Err(msg) =>
          var k :| FirstFailure(prompts[1..], gen, k) && Step(gen(prompts[1..][k])).msg == msg;
          assert FirstFailure(prompts, gen, k + 1);
          Err(msg)
        case Ok(imgs) =>
          match found
          case Some(img) => Ok([img] + imgs)
          case None => Ok(imgs)
  }

  /** Only one request can be the first failure. */
  lemma FirstFailureUnique(prompts: seq<string>, gen: string -> ImageReply, k: int, k': int)
    requires FirstFailure(prompts, gen, k) && FirstFailure(prompts, gen, k')
    ensures k == k'
  {
  }

  /** The `for … of` loop over the prompts, pushing each found image. */
  method CollectLoop(prompts: seq<string>, gen: string -> ImageReply) returns (r: Result<seq<string>>)
    ensures r == Collect(prompts, gen)
  {
    var images: seq<string> := [];
    var i := 0;
    assert prompts[0..] == prompts;
    if Collect(prompts, gen).Ok? {
      assert [] + Collect(prompts, gen).value == Collect(prompts, gen).value;
    }
    while i < |prompts|
      invariant 0 <= i <= |prompts|
      invariant Collect(prompts, gen) == AppendTo(images, Collect(prompts[i..], gen))
    {
      CollectStep(prompts, i, gen);
      match Step(gen(prompts[i]))
      case Err(msg) =>
        return Err(msg);
      case Ok(found) =>
        var step := if found.Some? then [found.value] else [];
        AppendToConcat(images, step, Collect(prompts[i + 1..], gen));
        images := images + step;
      i := i + 1;
    }
    assert prompts[i..] == [];
    assert images + [] == images;
    return Ok(images);
  }

  /** One step of the loop: a failure ends it with its message; a request
      that succeeded adds its image, if any, in front of the outcome of the
      rest. */
  lemma CollectStep(prompts: seq<string>, i: int, gen: string -> ImageReply)
    requires 0 <= i < |prompts|
    ensures Step(gen(prompts[i])).Err? ==> Collect(prompts[i..], gen) == Err(Step(gen(prompts[i])).msg)
    ensures Step(gen(prompts[i])).Ok? ==>
      var found := ImageOf(gen(prompts[i]));
      Collect(prompts[i..], gen)
        == AppendTo(if found.Some? then [found.value] else [], Collect(prompts[i + 1..], gen))
  {
    assert prompts[i..][1..] == prompts[i + 1..];
    var rest := Collect(prompts[i + 1..], gen);
    if Step(gen(prompts[i])).Ok? && rest.Ok? && ImageOf(gen(prompts[i])).None? {
      assert [] + rest.value == rest.value;
    }
  }

  /** Prepends the images already collected to the outcome of the rest. */
  function AppendTo(done: seq<string>, rest: Result<seq<string>>): Result<seq<string>>
  {
    match rest
    case Ok(imgs) => Ok(done + imgs)
    case Err(msg) => Err(msg)
  }

  lemma AppendToConcat(a: seq<string>, b: seq<string>, rest: Result<seq<string>>)
    ensures AppendTo(a, AppendTo(b, rest)) == AppendTo(a + b, rest)
  {
    if rest.Ok? {
      assert a + (b + rest.value) == a + b + rest.value;
    }
  }

  /** The user-facing message for an error caught in `generateImage`. */
  function ImageErrorMessage(msg: string): (r: string)
    ensures Contains(msg, "API_KEY_INVALID") ==> r == KeyInvalid
    ensures !Contains(msg, "API_KEY_INVALID") && (Contains(msg, "404") || Contains(msg, "not found")) ==>
      r == ModelNotFound
    ensures !Contains(msg, "API_KEY_INVALID") && !Contains(msg, "404") && !Contains(msg, "not found") ==>
      r == FailedPrefix + msg
  {
    if Contains(msg, "API_KEY_INVALID") then KeyInvalid
    else if Contains(msg, "404") || Contains(msg, "not found") then ModelNotFound
    else FailedPrefix + msg
  }

  /** `generateImage(prompts, config)`. The aspect ratio in `config` is
      accepted and not used. */
  function GenerateImage(geminiKey: string, prompts: seq<string>, aspectRatio: string,
                         gen: string -> ImageReply): (r: Result<seq<string>>)
    ensures geminiKey == "" ==> r == Err(MissingKey)
    ensures geminiKey != "" && r.Ok? ==>
      NoneFailed(prompts, gen) && r.value == ImagesOf(prompts, gen) && 0 < |r.value| <= |prompts|
    ensures geminiKey != "" && NoneFailed(prompts, gen) && ImagesOf(prompts, gen) != [] ==>
      r == Ok(ImagesOf(prompts, gen))
    ensures geminiKey != "" && NoneFailed(prompts, gen) && ImagesOf(prompts, gen) == [] ==>
      r == Err(ImageErrorMessage(NoImages))
    ensures forall k :: geminiKey != "" && FirstFailure(prompts, gen, k) ==>
      r == Err(ImageErrorMessage(Step(gen(prompts[k])).msg))
  {
    if geminiKey == "" then Err(MissingKey)
    else
      match Collect(prompts, gen)
      case Err(msg) => Err(ImageErrorMessage(msg))
      case Ok(images) =>
        if |images| == 0 then Err(ImageErrorMessage(NoImages)) else Ok(images)
  }

  /** When no prompt yields an image the caller sees the empty-result error
      with the generic prefix. */
  lemma NoImageMessage(geminiKey: string, prompts: seq<string>, aspectRatio: string, gen: string -> ImageReply)
    requires geminiKey != ""
    requires NoneFailed(prompts, gen)
    requires ImagesOf(prompts, gen) == []
    ensures GenerateImage(geminiKey, prompts, aspectRatio, gen) == Err(FailedPrefix + NoImages)
  {
    NoImagesMessageIsGeneric();
    assert Collect(prompts, gen) == Ok([]);
  }

  /** A first candidate without content throws inside the loop, so the whole
      batch fails with that error even when earlier prompts produced images. */
  lemma MissingContentAborts(geminiKey: string, prompts: seq<string>, aspectRatio: string,
                             gen: string -> ImageReply, k: int)
    requires geminiKey != ""
    requires 0 <= k < |prompts|
    requires forall j :: 0 <= j < k ==> Step(gen(prompts[j])).Ok?
    requires gen(prompts[k]).Reply? && gen(prompts[k]).candidates.Some?
    requires |gen(prompts[k]).candidates.value| > 0 && gen(prompts[k]).candidates.value[0].content.None?
    ensures GenerateImage(geminiKey, prompts, aspectRatio, gen) == Err(ImageErrorMessage(NoContent))
  {
    assert FirstFailure(prompts, gen, k);
  }

  /** The empty-result message carries none of the markers of the dedicated
      messages. */
  lemma NoImagesMessageIsGeneric()
    ensures ImageErrorMessage(NoImages) == FailedPrefix + NoImages
  {
    NoImagesIsHangul();
    NoMarkerIn(NoImages);
  }

  lemma NoImagesIsHangul()
    ensures forall i :: 0 <= i < |NoImages| ==>
      NoImages[i] == ' ' || NoImages[i] == '.' || NoImages[i] as int >= 0xAC00
  {
  }

  /** A message of Hangul, spaces and full stops carries no marker. */
  lemma NoMarkerIn(msg: string)
    requires forall i :: 0 <= i < |msg| ==> msg[i] == ' ' || msg[i] == '.' || msg[i] as int >= 0xAC00
    ensures !Contains(msg, "API_KEY_INVALID") && !Contains(msg, "404") && !Contains(msg, "not found")
  {
    LacksFirstChar(msg, "API_KEY_INVALID");
    LacksFirstChar(msg, "404");
    LacksFirstChar(msg, "not found");
  }

  /** An ASCII needle other than a space or a full stop does not occur in such
      a message. */
  lemma LacksFirstChar(msg: string, needle: string)
    requires forall i :: 0 <= i < |msg| ==> msg[i] == ' ' || msg[i] == '.' || msg[i] as int >= 0xAC00
    requires |needle| > 0 && needle[0] != ' ' && needle[0] != '.' && (needle[0] as int) < 0xAC00
    ensures !Contains(msg, needle)
  {
    NotContainsFirstChar(msg, needle);
  }

  /** The prompts that produced an image, in order. */
  function ProductivePrompts(prompts: seq<string>, gen: string -> ImageReply): (r: seq<string>)
    ensures IsSubsequence(r, prompts)
  {
    Filter(prompts, (p: string) => Produced(gen, p))
  }

  /** The result is the images of the productive prompts, in prompt order:
      an image is kept exactly when its prompt produced one. */
  lemma {:induction false} ImagesOfProductive(prompts: seq<string>, gen: string -> ImageReply)
    requires NoneFailed(prompts, gen)
    ensures var q := ProductivePrompts(prompts, gen);
      |ImagesOf(prompts, gen)| == |q| &&
      forall i :: 0 <= i < |q| ==> Produced(gen, q[i]) && ImagesOf(prompts, gen)[i] == ImageOf(gen(q[i])).value
  {
    if |prompts| > 0 {
      var rest := prompts[1..];
      assert NoneFailed(rest, gen) by {
        forall i | 0 <= i < |rest| ensures Step(gen(rest[i])).Ok? {
          assert rest[i] == prompts[i + 1];
        }
      }
      ImagesOfProductive(rest, gen);
      var q := ProductivePrompts(prompts, gen);
      var q' := ProductivePrompts(rest, gen);
      var imgs := ImagesOf(prompts, gen);
      var imgs' := ImagesOf(rest, gen);
      if Produced(gen, prompts[0]) {
        assert q == [prompts[0]] + q';
        assert imgs == [ImageOf(gen(prompts[0])).value] + imgs';
      } else {
        assert q == q';
        assert imgs == imgs';
      }
    }
  }

  /** The aspect ratio does not influence the outcome. */
  lemma AspectRatioIgnored(geminiKey: string, prompts: seq<string>, a1: string, a2: string,
                           gen: string -> ImageReply)
    ensures GenerateImage(geminiKey, prompts, a1, gen) == GenerateImage(geminiKey, prompts, a2, gen)
  {
  }
}
