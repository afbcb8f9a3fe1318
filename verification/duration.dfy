/** Duration arithmetic: the ISO-8601 `PT#H#M#S` durations the video listing
    reports, the Shorts threshold, the zero-views engagement guard, and the
    frame and scene counts derived from a requested length in seconds. */
module Duration {
  import opened Wrappers
  import opened Text

  // ---------------------------------------------------------------------
  // Integer ceiling division (Math.ceil(a / b))
  // ---------------------------------------------------------------------

  /** `Math.ceil(a / b)` for an integer `a` and a positive integer `b`. */
  function CeilDiv(a: int, b: int): (r: int)
    requires b > 0
    ensures b * (r - 1) < a <= b * r
  {
    -((-a) / b)
  }

  // ---------------------------------------------------------------------
  // parseDuration: /PT(\d+H)?(\d+M)?(\d+S)?/
  // ---------------------------------------------------------------------

  /** The index of the leftmost `"PT"` in `s`: where the unanchored regular
      expression matches, since its three groups are optional. */
  function FindPT(s: string): (r: Option<nat>)
    ensures r.Some? ==> OccursAt(s, "PT", r.value)
    ensures r.Some? ==> forall j :: 0 <= j < r.value ==> !OccursAt(s, "PT", j)
    ensures r.None? ==> forall j :: !OccursAt(s, "PT", j)
  {
    if |s| < 2 then None
    else if s[..2] == "PT" then Some(0)
    else
      match FindPT(s[1..])
      case None =>
        assert forall j :: 0 < j ==> OccursAt(s, "PT", j) ==> OccursAt(s[1..], "PT", j - 1);
        None
      case Some(i) =>
        assert forall j :: 0 < j ==> OccursAt(s, "PT", j) ==> OccursAt(s[1..], "PT", j - 1);
        assert s[i + 1..i + 3] == s[1..][i..i + 2];
        Some(i + 1)
  }

  /** One optional group `(\d+U)?` at the start of `t`: the text it captured
      (digits and the unit letter), and what follows it. */
  function Group(t: string, unit: char): (r: (Option<string>, string))
    requires !IsDigit(unit)
    ensures r.0.Some? ==> t == r.0.value + r.1
  {
    var n := RunLen(t, IsDigit);
    if 0 < n < |t| && t[n] == unit then
      assert t == t[..n + 1] + t[n + 1..];
      (Some(t[..n + 1]), t[n + 1..])
    else (None, t)
  }

  /** The three capture groups of a successful match. */
  datatype DurationMatch = DurationMatch(hours: Option<string>, minutes: Option<string>, seconds: Option<string>)

  /** `duration.match(/PT(\d+H)?(\d+M)?(\d+S)?/)`; `None` is a `null` match. */
  function MatchDuration(s: string): Option<DurationMatch>
  {
    match FindPT(s)
    case None => None
    case Some(i) => Some(MatchGroups(s[i + 2..]))
  }

  /** The three optional groups, matched one after the other after `"PT"`. */
  function MatchGroups(t: string): DurationMatch
  {
    var (h, r1) := Group(t, 'H');
    var (m, r2) := Group(r1, 'M');
    var (sec, _) := Group(r2, 'S');
    DurationMatch(h, m, sec)
  }

  /** `parseInt(group) || 0`: an absent group is `NaN`, which counts as 0. */
  function GroupValue(g: Option<string>): int
  {
    match g
    case None => 0
    case Some(t) => ParseInt(t).GetOr(0)
  }

  /** `parseDuration` as written: `None` is the TypeError raised by indexing a
      `null` match, which happens whenever the text holds no `"PT"`. */
  function ParseDurationAsWritten(s: string): (r: Option<int>)
  {
    match MatchDuration(s)
    case None => None
    case Some(m) => Some(MatchSeconds(m))
  }

  /** `hours * 3600 + minutes * 60 + seconds` of a match. */
  function MatchSeconds(m: DurationMatch): int
  {
    GroupValue(m.hours) * 3600 + GroupValue(m.minutes) * 60 + GroupValue(m.seconds)
  }

  /** `parseDuration` with the missing match treated as zero seconds, which
      is right for a live broadcast's `"P0D"`. A duration with a day part
      (`"P1DT2H"`) has no `"PT"` either and also reads as 0 here, not as its
      length; days are not parsed. */
  function ParseDuration(s: string): (r: int)
    ensures ParseDurationAsWritten(s).Some? ==> r == ParseDurationAsWritten(s).value
    ensures (forall j :: !OccursAt(s, "PT", j)) ==> r == 0
  {
    ParseDurationThrowsIff(s);
    match ParseDurationAsWritten(s)
    case None => 0
    case Some(v) => v
  }

  /** The as-written parser throws exactly when the text holds no `"PT"`. */
  lemma ParseDurationThrowsIff(s: string)
    ensures ParseDurationAsWritten(s).None? <==> forall j :: !OccursAt(s, "PT", j)
  {
  }

  /** The as-written parser throws on a live broadcast's duration. */
  lemma LiveBroadcastThrows()
    ensures ParseDurationAsWritten("P0D") == None
    ensures ParseDuration("P0D") == 0
  {
    ParseDurationThrowsIff("P0D");
    assert "P0D"[0..2] == "P0";
    assert "P0D"[1..3] == "0D";
    forall j ensures !OccursAt("P0D", "PT", j) {
      if 0 <= j <= 1 {
        assert "P0D"[j + 1] != 'T';
      }
    }
  }

  /** The `PT#H#M#S` text of a duration; absent components are omitted. */
  function IsoDuration(h: Option<nat>, m: Option<nat>, s: Option<nat>): string
  {
    "PT" + Component(h, 'H') + Component(m, 'M') + Component(s, 'S')
  }

  function Component(v: Option<nat>, unit: char): string
  {
    match v
    case None => ""
    case Some(n) => NatToString(n) + [unit]
  }

  /** The value a duration component stands for. */
  function ComponentValue(v: Option<nat>): nat { v.GetOr(0) }

  /** A present component is captured by its own group. */
  lemma GroupPresent(n: nat, unit: char, rest: string)
    requires !IsDigit(unit)
    ensures Group(NatToString(n) + [unit] + rest, unit) == (Some(NatToString(n) + [unit]), rest)
  {
    var d := NatToString(n);
    var t := d + [unit] + rest;
    RunLenOfConcat(d, [unit] + rest, IsDigit);
    assert t == d + ([unit] + rest);
    assert t[|d|] == unit;
    assert t[..|d| + 1] == d + [unit];
    assert t[|d| + 1..] == rest;
  }

  /** An absent component leaves the text for the next group, provided the
      next present component carries a different unit letter. */
  lemma GroupAbsent(t: string, unit: char)
    requires !IsDigit(unit)
    requires 0 < RunLen(t, IsDigit) < |t| ==> t[RunLen(t, IsDigit)] != unit
    ensures Group(t, unit) == (None, t)
  {
  }

  /** The captured `<digits>U` group reads back as the component's value. */
  lemma GroupValueOfComponent(n: nat, unit: char)
    requires !IsDigit(unit)
    ensures GroupValue(Some(NatToString(n) + [unit])) == n
  {
    ParseIntOfDigits(NatToString(n), [unit]);
    DigitsValueOfNatToString(n);
  }

  /** Where the next group starts after an absent component: a present later
      component starts with digits followed by its own unit letter. */
  lemma RunOfComponents(m: Option<nat>, s: Option<nat>, um: char, us: char)
    requires !IsDigit(um) && !IsDigit(us)
    ensures var t := Component(m, um) + Component(s, us);
      m.Some? ==> RunLen(t, IsDigit) == |NatToString(m.value)| && t[|NatToString(m.value)|] == um
    ensures var t := Component(m, um) + Component(s, us);
      m.None? && s.Some? ==> RunLen(t, IsDigit) == |NatToString(s.value)| && t[|NatToString(s.value)|] == us
    ensures m.None? && s.None? ==> Component(m, um) + Component(s, us) == ""
  {
    var t := Component(m, um) + Component(s, us);
    if m.Some? {
      var d := NatToString(m.value);
      assert t == d + ([um] + Component(s, us));
      RunLenOfConcat(d, [um] + Component(s, us), IsDigit);
    } else if s.Some? {
      var d := NatToString(s.value);
      assert t == d + [us];
      RunLenOfConcat(d, [us], IsDigit);
    }
  }

  /** The leftmost `"PT"` of a text whose prefix holds none is where the
      duration starts. */
  lemma FindPTAfterPrefix(prefix: string, rest: string)
    requires forall j :: !OccursAt(prefix, "PT", j)
    requires StartsWith(rest, "PT")
    ensures FindPT(prefix + rest) == Some(|prefix|)
  {
    var text := prefix + rest;
    var p := |prefix|;
    assert text[p..p + 2] == rest[..2];
    forall j | 0 <= j < p ensures !OccursAt(text, "PT", j) {
      if j + 2 <= p {
        assert text[j..j + 2] == prefix[j..j + 2];
        assert !OccursAt(prefix, "PT", j);
      } else {
        assert text[j + 1] == rest[0];
      }
    }
    var found := FindPT(text);
    assert OccursAt(text, "PT", p);
    assert found.Some?;
    assert !(found.value < p);
    assert !(found.value > p);
  }

  /** The groups capture exactly the present components. */
  lemma MatchGroupsOfComponents(h: Option<nat>, m: Option<nat>, s: Option<nat>)
    ensures var g := MatchGroups(Component(h, 'H') + Component(m, 'M') + Component(s, 'S'));
      GroupValue(g.hours) == ComponentValue(h)
      && GroupValue(g.minutes) == ComponentValue(m)
      && GroupValue(g.seconds) == ComponentValue(s)
  {
    var r2 := Component(s, 'S');
    var r1 := Component(m, 'M') + r2;
    var body := Component(h, 'H') + r1;
    assert body == Component(h, 'H') + Component(m, 'M') + Component(s, 'S');
    HoursGroup(h, m, s);
    MinutesGroup(m, s);
    SecondsGroup(s);
    var gh := Group(body, 'H');
    var gm := Group(gh.1, 'M');
    var gs := Group(gm.1, 'S');
    assert gh.1 == r1 && gm.1 == r2;
    assert MatchGroups(body) == DurationMatch(gh.0, gm.0, gs.0);
  }

  lemma HoursGroup(h: Option<nat>, m: Option<nat>, s: Option<nat>)
    ensures var r1 := Component(m, 'M') + Component(s, 'S');
      var g := Group(Component(h, 'H') + r1, 'H');
      g.1 == r1 && GroupValue(g.0) == ComponentValue(h)
  {
    var r1 := Component(m, 'M') + Component(s, 'S');
    if h.Some? {
      GroupPresent(h.value, 'H', r1);
      GroupValueOfComponent(h.value, 'H');
    } else {
      assert Component(h, 'H') + r1 == r1;
      RunOfComponents(m, s, 'M', 'S');
      GroupAbsent(r1, 'H');
    }
  }

  lemma MinutesGroup(m: Option<nat>, s: Option<nat>)
    ensures var r2 := Component(s, 'S');
      var g := Group(Component(m, 'M') + r2, 'M');
      g.1 == r2 && GroupValue(g.0) == ComponentValue(m)
  {
    var r2 := Component(s, 'S');
    if m.Some? {
      GroupPresent(m.value, 'M', r2);
      GroupValueOfComponent(m.value, 'M');
    } else {
      assert Component(m, 'M') + r2 == r2 + Component(None, 'H');
      RunOfComponents(s, None, 'S', 'H');
      GroupAbsent(r2, 'M');
    }
  }

  lemma SecondsGroup(s: Option<nat>)
    ensures GroupValue(Group(Component(s, 'S'), 'S').0) == ComponentValue(s)
  {
    if s.Some? {
      GroupPresent(s.value, 'S', "");
      assert Component(s, 'S') == NatToString(s.value) + ['S'] + "";
      GroupValueOfComponent(s.value, 'S');
    } else {
      GroupAbsent("", 'S');
    }
  }

  /** The match of a `PT#H#M#S` text after a prefix free of `"PT"`. */
  lemma MatchOfIso(prefix: string, h: Option<nat>, m: Option<nat>, s: Option<nat>)
    requires forall j :: !OccursAt(prefix, "PT", j)
    ensures MatchDuration(prefix + IsoDuration(h, m, s))
      == Some(MatchGroups(Component(h, 'H') + Component(m, 'M') + Component(s, 'S')))
  {
    var iso := IsoDuration(h, m, s);
    SplitLead("PT", Component(h, 'H'), Component(m, 'M'), Component(s, 'S'));
    MatchAfterPrefix(prefix, iso);
  }

  /** The text after a leading part of a concatenation. */
  lemma SplitLead(p: string, a: string, b: string, c: string)
    ensures StartsWith(p + a + b + c, p)
    ensures (p + a + b + c)[|p|..] == a + b + c
  {
    assert (p + a + b + c)[..|p|] == p;
  }

  /** The groups are matched right after the first `"PT"`, which is the one
      that follows a prefix free of `"PT"`. */
  lemma MatchAfterPrefix(prefix: string, rest: string)
    requires forall j :: !OccursAt(prefix, "PT", j)
    requires StartsWith(rest, "PT")
    ensures MatchDuration(prefix + rest) == Some(MatchGroups(rest[2..]))
  {
    FindPTAfterPrefix(prefix, rest);
    assert (prefix + rest)[|prefix| + 2..] == rest[2..];
  }

  /** Round trip: a `PT#H#M#S` text after any prefix free of `"PT"` parses to
      `3600*h + 60*m + s`, absent components counting as zero. */
  lemma ParseIsoDuration(prefix: string, h: Option<nat>, m: Option<nat>, s: Option<nat>)
    requires forall j :: !OccursAt(prefix, "PT", j)
    ensures ParseDurationAsWritten(prefix + IsoDuration(h, m, s)).Some?
    ensures ParseDurationAsWritten(prefix + IsoDuration(h, m, s)).value
      == 3600 * ComponentValue(h) + 60 * ComponentValue(m) + ComponentValue(s)
  {
    var text := prefix + IsoDuration(h, m, s);
    var g := MatchGroups(Component(h, 'H') + Component(m, 'M') + Component(s, 'S'));
    assert MatchDuration(text) == Some(g) by {
      MatchOfIso(prefix, h, m, s);
    }
    assert GroupValue(g.hours) == ComponentValue(h)
      && GroupValue(g.minutes) == ComponentValue(m)
      && GroupValue(g.seconds) == ComponentValue(s) by {
      MatchGroupsOfComponents(h, m, s);
    }
    ParseOfMatch(text, g, ComponentValue(h), ComponentValue(m), ComponentValue(s));
  }

  lemma ParseOfMatch(text: string, g: DurationMatch, h: int, m: int, s: int)
    requires MatchDuration(text) == Some(g)
    requires GroupValue(g.hours) == h && GroupValue(g.minutes) == m && GroupValue(g.seconds) == s
    ensures ParseDurationAsWritten(text) == Some(3600 * h + 60 * m + s)
  {
    assert ParseDurationAsWritten(text) == Some(MatchSeconds(g));
  }

  // ---------------------------------------------------------------------
  // Classification and engagement
  // ---------------------------------------------------------------------

  /** A video counts as a Short when it lasts at most a minute. */
  const ShortsLimitSeconds: int := 60

  predicate IsShort(durationSec: int) { durationSec <= ShortsLimitSeconds }

  /** `calculateEngagement`: (likes + comments) per 100 views, and 0 for a
      video nobody has viewed (the guard that avoids a division by zero). */
  function Engagement(views: int, likes: int, comments: int): (r: real)
    ensures views == 0 ==> r == 0.0
    ensures views != 0 ==> r * (views as real) == ((likes + comments) as real) * 100.0
    ensures views > 0 && likes >= 0 && comments >= 0 ==> r >= 0.0
  {
    if views == 0 then 0.0 else ((likes + comments) as real / views as real) * 100.0
  }

  // ---------------------------------------------------------------------
  // Requested length -> frame and scene counts
  // ---------------------------------------------------------------------

  /** A `duration` field of a request body as JavaScript sees it: a number of
      whole seconds, or a value whose numeric conversion is `NaN` (shown as
      its template-literal rendering). */
  datatype DurationValue = Seconds(n: int) | NonNumeric(shown: string)

  /** The seconds between two storyboard frames at the prompt endpoint. */
  const FrameIntervalSeconds: int := 3

  /** The seconds per storyboard scene in the storyboard generator. */
  const SceneSeconds: int := 5

  /** The storyboard length used when none (or zero) is given. */
  const DefaultStoryboardSeconds: int := 40

  /** `Math.ceil(duration / 3)`: `None` is `NaN`. */
  function FrameCount(d: DurationValue): (r: Option<int>)
    ensures d.Seconds? ==> r.Some? && 3 * (r.value - 1) < d.n <= 3 * r.value
    ensures d.NonNumeric? ==> r.None?
  {
    match d
    case Seconds(n) => Some(CeilDiv(n, FrameIntervalSeconds))
    case NonNumeric(_) => None
  }

  /** `parseInt(duration) || 40` for a numeric argument (`None` is `NaN` or
      an omitted argument, which takes the default 40 too). */
  function DurationInt(duration: Option<int>): (r: int)
    ensures duration.Some? && duration.value != 0 ==> r == duration.value
    ensures duration.None? || duration.value == 0 ==> r == DefaultStoryboardSeconds
    ensures r != 0
  {
    match duration
    case None => DefaultStoryboardSeconds
    case Some(n) =>
      ParseIntOfIntToString(n);
      match ParseInt(IntToString(n))
      case None => DefaultStoryboardSeconds
      case Some(v) => if v == 0 then DefaultStoryboardSeconds else v
  }

  /** `Math.ceil(durationInt / 5)`: the scene count the storyboard prompt demands. */
  function SceneCount(durationInt: int): (r: int)
    ensures 5 * (r - 1) < durationInt <= 5 * r
    ensures durationInt > 0 ==> r >= 1
  {
    CeilDiv(durationInt, SceneSeconds)
  }
}
