/** The browser's `handleImageGeneration`: a re-entrancy guard, one
    placeholder per frame, then one `/api/generate-image` request per frame
    in order with a pause after each answer; a frame whose answer is not a
    success is marked failed and the loop goes on, a thrown error ends it,
    and the guard is always released. */
module ImageLoop {
  import opened Wrappers

  /** `{ frame, prompt }`: the frame number as shown, and its prompt. */
  datatype PromptInfo = PromptInfo(frame: string, prompt: string)

  /** What one request yields: the message of an error thrown by `fetch` or
      `response.json()`, or the parsed `{ success, data }` body. */
  datatype Answer = Threw(msg: string) | Answered(success: bool, data: Option<seq<string>>)

  /** What a frame's placeholder shows. */
  datatype FrameState = Waiting | Generating | Shown(image: string) | Failed

  /** The observable steps: a request for a prompt, and the one-second
      pause. */
  datatype Event = Request(prompt: string) | Pause

  /** The `isProcessing` flag and the placeholders, by frame number. */
  datatype Ui = Ui(isProcessing: bool, grid: map<string, FrameState>)

  /** The placeholders, the trace of steps, and the error that ended the
      loop, if any. */
  datatype Progress = Progress(grid: map<string, FrameState>, trace: seq<Event>, error: Option<string>)

  /** `result.success && result.data && result.data.length > 0`: the first
      image, otherwise the failure mark. */
  function Outcome(a: Answer): (r: FrameState)
    requires a.Answered?
    ensures r.Shown? <==> a.success && a.data.Some? && |a.data.value| > 0
    ensures r.Shown? ==> r.image == a.data.value[0]
    ensures !r.Shown? ==> r == Failed
  {
    if a.success && a.data.Some? && |a.data.value| > 0 then Shown(a.data.value[0]) else Failed
  }

  /** The skeleton grid: every frame waiting. */
  function Placeholders(ps: seq<PromptInfo>): (r: map<string, FrameState>)
    ensures forall k :: 0 <= k < |ps| ==> ps[k].frame in r
    ensures forall f :: f in r ==> r[f] == Waiting
    ensures r.Keys == set k | 0 <= k < |ps| :: ps[k].frame
  {
    if |ps| == 0 then map[]
    else
      var init := Placeholders(ps[..|ps| - 1]);
      assert forall k :: 0 <= k < |ps| - 1 ==> ps[k] == ps[..|ps| - 1][k];
      init[ps[|ps| - 1].frame := Waiting]
  }

  /** The loop over the remaining frames, as a reference definition. */
  function Run(grid: map<string, FrameState>, ps: seq<PromptInfo>, fetch: string -> Answer): Progress
    decreases |ps|
  {
    if |ps| == 0 then Progress(grid, [], None)
    else
      var spinning := grid[ps[0].frame := Generating];
      match fetch(ps[0].prompt)
      case Threw(msg) => Progress(spinning, [Request(ps[0].prompt)], Some(msg))
      case Answered(_, _) =>
        var rest := Run(spinning[ps[0].frame := Outcome(fetch(ps[0].prompt))], ps[1..], fetch);
        Progress(rest.grid, [Request(ps[0].prompt), Pause] + rest.trace, rest.error)
  }

  /** Prepends steps already taken to the progress of the rest. */
  function After(done: seq<Event>, p: Progress): Progress {
    Progress(p.grid, done + p.trace, p.error)
  }

  lemma AfterAfter(a: seq<Event>, b: seq<Event>, p: Progress)
    ensures After(a, After(b, p)) == After(a + b, p)
  {
    assert a + (b + p.trace) == a + b + p.trace;
  }

  const AlertPrefix: string := "Image generation error: "

  /** `handleImageGeneration(promptsInfo, triggerBtn)`. While a run is in
      progress a new call does nothing. Otherwise the grid is replaced by the
      placeholders, the frames are processed in order, the thrown error (if
      any) is alerted, and the flag is released. */
  method HandleImageGeneration(ui: Ui, ps: seq<PromptInfo>, fetch: string -> Answer)
    returns (ui': Ui, trace: seq<Event>, alert: Option<string>)
    ensures ui.isProcessing ==> ui' == ui && trace == [] && alert == None
    ensures !ui.isProcessing ==>
      var p := Run(Placeholders(ps), ps, fetch);
      !ui'.isProcessing && ui'.grid == p.grid && trace == p.trace &&
      alert == (if p.error.Some? then Some(AlertPrefix + p.error.value) else None)
  {
    if ui.isProcessing {
      return ui, [], None;
    }
    var grid := Placeholders(ps);
    trace := [];
    var i := 0;
    assert ps[0..] == ps;
    assert After([], Run(grid, ps, fetch)) == Run(grid, ps, fetch);
    while i < |ps|
      invariant 0 <= i <= |ps|
      invariant Run(Placeholders(ps), ps, fetch) == After(trace, Run(grid, ps[i..], fetch))
    {
      var info := ps[i];
      assert ps[i..][0] == info && ps[i..][1..] == ps[i + 1..];
      grid := grid[info.frame := Generating];
      var answer := fetch(info.prompt);
      if answer.Threw? {
        trace := trace + [Request(info.prompt)];
        return Ui(false, grid), trace, Some(AlertPrefix + answer.msg);
      }
      grid := grid[info.frame := Outcome(answer)];
      AfterAfter(trace, [Request(info.prompt), Pause], Run(grid, ps[i + 1..], fetch));
      trace := trace + [Request(info.prompt), Pause];
      i := i + 1;
    }
    assert ps[i..] == [];
    assert trace + [] == trace;
    return Ui(false, grid), trace, None;
  }

  /** No request threw among the first `n` frames. */
  predicate AnsweredUpTo(ps: seq<PromptInfo>, fetch: string -> Answer, n: int)
    requires 0 <= n <= |ps|
  {
    forall k :: 0 <= k < n ==> fetch(ps[k].prompt).Answered?
  }

  /** Frame `k` was requested, then the pause, in the two steps from `2k`. */
  predicate RequestedInOrder(trace: seq<Event>, ps: seq<PromptInfo>, n: int)
    requires 0 <= n <= |ps| && 2 * n <= |trace|
  {
    forall k :: 0 <= k < n ==> trace[2 * k] == Request(ps[k].prompt) && trace[2 * k + 1] == Pause
  }

  /** When nothing throws, every frame is requested once, in order, each
      request followed by a pause. */
  lemma {:induction false} AllFramesRequested(grid: map<string, FrameState>, ps: seq<PromptInfo>, fetch: string -> Answer)
    requires AnsweredUpTo(ps, fetch, |ps|)
    ensures var p := Run(grid, ps, fetch);
      |p.trace| == 2 * |ps| && RequestedInOrder(p.trace, ps, |ps|) && p.error == None
    decreases |ps|
  {
    if |ps| > 0 {
      var g := grid[ps[0].frame := Generating][ps[0].frame := Outcome(fetch(ps[0].prompt))];
      assert fetch(ps[0].prompt).Answered?;
      assert AnsweredUpTo(ps[1..], fetch, |ps| - 1) by {
        forall k | 0 <= k < |ps| - 1 ensures fetch(ps[1..][k].prompt).Answered? {
          assert ps[1..][k] == ps[k + 1];
        }
      }
      AllFramesRequested(g, ps[1..], fetch);
      var t := Run(g, ps[1..], fetch).trace;
      var full := Run(grid, ps, fetch).trace;
      assert full == [Request(ps[0].prompt), Pause] + t;
      forall k | 0 <= k < |ps| ensures full[2 * k] == Request(ps[k].prompt) && full[2 * k + 1] == Pause {
        if k > 0 {
          assert full[2 * k] == t[2 * (k - 1)];
          assert full[2 * k + 1] == t[2 * (k - 1) + 1];
          assert ps[1..][k - 1] == ps[k];
        }
      }
    }
  }

  /** A throw at frame `j` ends the run: frames before it were requested in
      order, frame `j` was requested, and nothing after it; the error is
      that frame's. */
  lemma {:induction false} ThrowAborts(grid: map<string, FrameState>, ps: seq<PromptInfo>, fetch: string -> Answer, j: int)
    requires 0 <= j < |ps|
    requires AnsweredUpTo(ps, fetch, j)
    requires fetch(ps[j].prompt).Threw?
    ensures var p := Run(grid, ps, fetch);
      |p.trace| == 2 * j + 1 && RequestedInOrder(p.trace, ps, j) &&
      p.trace[2 * j] == Request(ps[j].prompt) && p.error == Some(fetch(ps[j].prompt).msg)
    decreases |ps|
  {
    if j > 0 {
      var g := grid[ps[0].frame := Generating][ps[0].frame := Outcome(fetch(ps[0].prompt))];
      assert fetch(ps[0].prompt).Answered?;
      assert ps[1..][j - 1] == ps[j];
      assert AnsweredUpTo(ps[1..], fetch, j - 1) by {
        forall k | 0 <= k < j - 1 ensures fetch(ps[1..][k].prompt).Answered? {
          assert ps[1..][k] == ps[k + 1];
        }
      }
      ThrowAborts(g, ps[1..], fetch, j - 1);
      var t := Run(g, ps[1..], fetch).trace;
      var full := Run(grid, ps, fetch).trace;
      assert full == [Request(ps[0].prompt), Pause] + t;
      forall k | 0 <= k < j ensures full[2 * k] == Request(ps[k].prompt) && full[2 * k + 1] == Pause {
        if k > 0 {
          assert full[2 * k] == t[2 * (k - 1)];
          assert full[2 * k + 1] == t[2 * (k - 1) + 1];
          assert ps[1..][k - 1] == ps[k];
        }
      }
      assert full[2 * j] == t[2 * (j - 1)];
    }
  }

  /** No frame of the list is `f`. */
  predicate NotAFrame(ps: seq<PromptInfo>, f: string) {
    forall k :: 0 <= k < |ps| ==> ps[k].frame != f
  }

  /** The frame numbers are pairwise distinct. */
  predicate DistinctFrames(ps: seq<PromptInfo>) {
    forall a, b :: 0 <= a < b < |ps| ==> ps[a].frame != ps[b].frame
  }

  /** The run touches only the placeholders of its own frames. */
  lemma {:induction false} RunKeepsOthers(grid: map<string, FrameState>, ps: seq<PromptInfo>, fetch: string -> Answer, f: string)
    requires NotAFrame(ps, f)
    ensures (f in Run(grid, ps, fetch).grid <==> f in grid)
    ensures f in grid ==> Run(grid, ps, fetch).grid[f] == grid[f]
    decreases |ps|
  {
    if |ps| > 0 {
      assert ps[0].frame != f;
      if fetch(ps[0].prompt).Answered? {
        var g := grid[ps[0].frame := Generating][ps[0].frame := Outcome(fetch(ps[0].prompt))];
        assert NotAFrame(ps[1..], f) by {
          forall k | 0 <= k < |ps| - 1 ensures ps[1..][k].frame != f {
            assert ps[1..][k] == ps[k + 1];
          }
        }
        RunKeepsOthers(g, ps[1..], fetch, f);
      }
    }
  }

  /** With distinct frame numbers and no throw, each frame ends showing its
      own answer: its first image, or the failure mark, whatever the other
      frames got. */
  lemma {:induction false} EachFrameMarked(grid: map<string, FrameState>, ps: seq<PromptInfo>, fetch: string -> Answer)
    requires DistinctFrames(ps)
    requires AnsweredUpTo(ps, fetch, |ps|)
    ensures forall k :: 0 <= k < |ps| ==>
      ps[k].frame in Run(grid, ps, fetch).grid &&
      Run(grid, ps, fetch).grid[ps[k].frame] == Outcome(fetch(ps[k].prompt))
    decreases |ps|
  {
    if |ps| > 0 {
      var a := fetch(ps[0].prompt);
      assert a.Answered?;
      var g := grid[ps[0].frame := Generating][ps[0].frame := Outcome(a)];
      var rest := ps[1..];
      assert DistinctFrames(rest) by {
        forall x, y | 0 <= x < y < |rest| ensures rest[x].frame != rest[y].frame {
          assert rest[x] == ps[x + 1] && rest[y] == ps[y + 1];
        }
      }
      assert AnsweredUpTo(rest, fetch, |rest|) by {
        forall k | 0 <= k < |rest| ensures fetch(rest[k].prompt).Answered? {
          assert rest[k] == ps[k + 1];
        }
      }
      EachFrameMarked(g, rest, fetch);
      assert NotAFrame(rest, ps[0].frame) by {
        forall k | 0 <= k < |rest| ensures rest[k].frame != ps[0].frame {
          assert rest[k] == ps[k + 1];
        }
      }
      RunKeepsOthers(g, rest, fetch, ps[0].frame);
      assert Run(grid, ps, fetch).grid == Run(g, rest, fetch).grid;
      forall k | 1 <= k < |ps|
        ensures ps[k].frame in Run(grid, ps, fetch).grid
        ensures Run(grid, ps, fetch).grid[ps[k].frame] == Outcome(fetch(ps[k].prompt))
      {
        assert rest[k - 1] == ps[k];
      }
    }
  }

  /** A throw at frame `j` leaves that frame's spinner running and the
      frames after it waiting (distinct frame numbers). */
  lemma {:induction false} ThrowLeavesSpinner(grid: map<string, FrameState>, ps: seq<PromptInfo>, fetch: string -> Answer, j: int)
    requires DistinctFrames(ps)
    requires 0 <= j < |ps|
    requires AnsweredUpTo(ps, fetch, j)
    requires fetch(ps[j].prompt).Threw?
    ensures ps[j].frame in Run(grid, ps, fetch).grid && Run(grid, ps, fetch).grid[ps[j].frame] == Generating
    ensures forall k :: j < k < |ps| && ps[k].frame in grid ==>
      ps[k].frame in Run(grid, ps, fetch).grid && Run(grid, ps, fetch).grid[ps[k].frame] == grid[ps[k].frame]
    decreases |ps|
  {
    var rest := ps[1..];
    if j > 0 {
      var a := fetch(ps[0].prompt);
      assert a.Answered?;
      var g := grid[ps[0].frame := Generating][ps[0].frame := Outcome(a)];
      assert DistinctFrames(rest) by {
        forall x, y | 0 <= x < y < |rest| ensures rest[x].frame != rest[y].frame {
          assert rest[x] == ps[x + 1] && rest[y] == ps[y + 1];
        }
      }
      assert AnsweredUpTo(rest, fetch, j - 1) by {
        forall k | 0 <= k < j - 1 ensures fetch(rest[k].prompt).Answered? {
          assert rest[k] == ps[k + 1];
        }
      }
      assert rest[j - 1] == ps[j];
      ThrowLeavesSpinner(g, rest, fetch, j - 1);
      assert Run(grid, ps, fetch).grid == Run(g, rest, fetch).grid;
      forall k | j < k < |ps| && ps[k].frame in grid
        ensures ps[k].frame in Run(grid, ps, fetch).grid && Run(grid, ps, fetch).grid[ps[k].frame] == grid[ps[k].frame]
      {
        assert rest[k - 1] == ps[k];
        assert ps[k].frame != ps[0].frame;
        assert g[ps[k].frame] == grid[ps[k].frame];
      }
    } else {
      assert Run(grid, ps, fetch).grid == grid[ps[0].frame := Generating];
      forall k | 0 < k < |ps| && ps[k].frame in grid
        ensures ps[k].frame in Run(grid, ps, fetch).grid && Run(grid, ps, fetch).grid[ps[k].frame] == grid[ps[k].frame]
      {
        assert ps[k].frame != ps[0].frame;
      }
    }
  }
}
