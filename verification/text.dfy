/** String primitives of the JavaScript runtime that the rest of the model
    relies on: the `\s` character class, ASCII lower-casing, `includes`,
    `join`, the decimal rendering of integers and `parseInt`, and the
    maximal runs a global regular expression or a whitespace split yields. */
module Text {
  import opened Wrappers

  // ---------------------------------------------------------------------
  // Character classes
  // ---------------------------------------------------------------------

  /** JavaScript's `\s`: the WhiteSpace and LineTerminator code points. */
  predicate IsSpace(c: char) {
    var n := c as int;
    n == 0x09 || n == 0x0A || n == 0x0B || n == 0x0C || n == 0x0D || n == 0x20
    || n == 0xA0 || n == 0x1680 || (0x2000 <= n <= 0x200A) || n == 0x2028
    || n == 0x2029 || n == 0x202F || n == 0x205F || n == 0x3000 || n == 0xFEFF
  }

  predicate IsDigit(c: char) { '0' <= c <= '9' }

  predicate IsUpper(c: char) { 'A' <= c <= 'Z' }

  predicate IsLower(c: char) { 'a' <= c <= 'z' }

  /** JavaScript's `\w`: ASCII letters, digits and the underscore. */
  predicate IsWordChar(c: char) { IsUpper(c) || IsLower(c) || IsDigit(c) || c == '_' }

  predicate AllDigits(s: string) { forall i :: 0 <= i < |s| ==> IsDigit(s[i]) }

  /** No ASCII capital letter remains. */
  predicate IsLowercase(s: string) { forall i :: 0 <= i < |s| ==> !IsUpper(s[i]) }

  // ---------------------------------------------------------------------
  // Lower-casing (ASCII letters; Hangul has no case)
  // ---------------------------------------------------------------------

  function LowerChar(c: char): (r: char)
    ensures !IsUpper(r)
    ensures !IsUpper(c) ==> r == c
  {
    if IsUpper(c) then (c as int + 32) as char else c
  }

  /** `toLowerCase()` restricted to ASCII capitals. */
  function Lower(s: string): (r: string)
    ensures |r| == |s|
    ensures IsLowercase(r)
    ensures forall i :: 0 <= i < |s| ==> r[i] == LowerChar(s[i])
  {
    seq(|s|, i requires 0 <= i < |s| => LowerChar(s[i]))
  }

  /** Lower-casing a string that is already lower-case changes nothing. */
  lemma LowerOfLowercase(s: string)
    requires IsLowercase(s)
    ensures Lower(s) == s
  {
  }

  // ---------------------------------------------------------------------
  // Prefixes, suffixes and substrings
  // ---------------------------------------------------------------------

  predicate StartsWith(s: string, p: string) { |p| <= |s| && s[..|p|] == p }

  predicate EndsWith(s: string, p: string) { |p| <= |s| && s[|s| - |p|..] == p }

  /** `needle` occurs in `hay` starting at index `i`. */
  predicate OccursAt(hay: string, needle: string, i: int) {
    0 <= i && i + |needle| <= |hay| && hay[i..i + |needle|] == needle
  }

  /** `hay.includes(needle)`, scanning from the left. */
  predicate Contains(hay: string, needle: string)
    decreases |hay|
  {
    StartsWith(hay, needle) || (|hay| > 0 && Contains(hay[1..], needle))
  }

  /** The scanning definition of `includes` agrees with "occurs at some index". */
  lemma {:induction false} ContainsIff(hay: string, needle: string)
    ensures Contains(hay, needle) <==> exists i :: OccursAt(hay, needle, i)
    decreases |hay|
  {
    if StartsWith(hay, needle) {
      assert OccursAt(hay, needle, 0);
    } else if |hay| == 0 {
      assert |needle| > 0;
    } else {
      ContainsIff(hay[1..], needle);
      if exists i :: OccursAt(hay[1..], needle, i) {
        var i :| OccursAt(hay[1..], needle, i);
        assert hay[i + 1..i + 1 + |needle|] == hay[1..][i..i + |needle|];
        assert OccursAt(hay, needle, i + 1);
      }
      if exists i :: OccursAt(hay, needle, i) {
        var i :| OccursAt(hay, needle, i);
        assert i != 0;
        assert hay[1..][i - 1..i - 1 + |needle|] == hay[i..i + |needle|];
        assert OccursAt(hay[1..], needle, i - 1);
      }
    }
  }

  /** A needle that occurs at a known index is found by `includes`. */
  lemma ContainsAt(hay: string, needle: string, i: int)
    requires OccursAt(hay, needle, i)
    ensures Contains(hay, needle)
  {
    ContainsIff(hay, needle);
  }

  /** Whatever occurs in a part of a concatenation occurs in the whole. */
  lemma ContainsInConcat(a: string, b: string, c: string, needle: string)
    requires Contains(b, needle)
    ensures Contains(a + b + c, needle)
  {
    ContainsIff(b, needle);
    var i :| OccursAt(b, needle, i);
    assert (a + b + c)[|a| + i..|a| + i + |needle|] == b[i..i + |needle|];
    ContainsAt(a + b + c, needle, |a| + i);
  }

  /** A text without the needle's first character does not contain it. */
  lemma {:induction false} NotContainsFirstChar(hay: string, needle: string)
    requires |needle| > 0
    requires forall i :: 0 <= i < |hay| ==> hay[i] != needle[0]
    ensures !Contains(hay, needle)
    decreases |hay|
  {
    if |hay| > 0 {
      if |needle| <= |hay| {
        assert hay[..|needle|][0] == hay[0];
      }
      NotContainsFirstChar(hay[1..], needle);
    }
  }

  /** Containment is transitive. */
  lemma ContainsTransitive(a: string, b: string, c: string)
    requires Contains(a, b) && Contains(b, c)
    ensures Contains(a, c)
  {
    ContainsIff(a, b);
    ContainsIff(b, c);
    var i :| OccursAt(a, b, i);
    var j :| OccursAt(b, c, j);
    assert a[i..i + |b|] == b;
    forall k | 0 <= k < |c| ensures a[i + j + k] == c[k] {
      assert a[i + j + k] == a[i..i + |b|][j + k];
      assert b[j + k] == b[j..j + |c|][k];
    }
    assert a[i + j..i + j + |c|] == c;
    ContainsAt(a, c, i + j);
  }

  /** Equal concatenations with a common prefix have equal remainders. */
  lemma CancelPrefix(p: string, a: string, b: string)
    requires p + a == p + b
    ensures a == b
  {
    assert a == (p + a)[|p|..];
    assert b == (p + b)[|p|..];
  }

  /** Equal concatenations with a common suffix have equal beginnings. */
  lemma CancelSuffix(a: string, b: string, s: string)
    requires a + s == b + s
    ensures a == b
  {
    assert a == (a + s)[..|a|];
    assert b == (b + s)[..|b|];
  }

  /** Index of the first `c` in `s`, or `|s|` when there is none. */
  function IndexOf(s: string, c: char): (r: nat)
    ensures r <= |s|
  {
    if |s| == 0 || s[0] == c then 0 else 1 + IndexOf(s[1..], c)
  }

  lemma {:induction false} IndexOfSeparator(a: string, c: char, b: string)
    requires forall i :: 0 <= i < |a| ==> a[i] != c
    ensures IndexOf(a + [c] + b, c) == |a|
    decreases |a|
  {
    if |a| > 0 {
      assert (a + [c] + b)[1..] == a[1..] + [c] + b;
      IndexOfSeparator(a[1..], c, b);
    }
  }

  /** A separator that cannot occur in the first field makes
      `a + sep + b` uniquely decomposable. */
  lemma SplitAtSeparator(a: string, b: string, c: string, d: string, sep: char)
    requires forall i :: 0 <= i < |a| ==> a[i] != sep
    requires forall i :: 0 <= i < |c| ==> c[i] != sep
    requires a + [sep] + b == c + [sep] + d
    ensures a == c && b == d
  {
    var x := a + [sep] + b;
    IndexOfSeparator(a, sep, b);
    IndexOfSeparator(c, sep, d);
    assert |a| == |c|;
    assert a == x[..|a|];
    assert c == (c + [sep] + d)[..|c|];
    assert b == x[|a| + 1..];
    assert d == (c + [sep] + d)[|c| + 1..];
  }

  // ---------------------------------------------------------------------
  // Array.prototype.join
  // ---------------------------------------------------------------------

  /** `xs.join(sep)`. */
  function Join(xs: seq<string>, sep: string): (r: string)
    ensures |xs| == 1 ==> r == xs[0]
    ensures |xs| == 0 ==> r == ""
  {
    if |xs| == 0 then ""
    else if |xs| == 1 then xs[0]
    else xs[0] + sep + Join(xs[1..], sep)
  }

  /** Every element of a joined list occurs in the joined text. */
  lemma {:induction false} JoinContainsEach(xs: seq<string>, sep: string, k: int)
    requires 0 <= k < |xs|
    ensures Contains(Join(xs, sep), xs[k])
  {
    ContainsIff(xs[k], xs[k]);
    assert OccursAt(xs[k], xs[k], 0);
    if |xs| == 1 {
    } else if k == 0 {
      ContainsInConcat("", xs[0], sep + Join(xs[1..], sep), xs[0]);
      assert "" + xs[0] + (sep + Join(xs[1..], sep)) == Join(xs, sep);
    } else {
      JoinContainsEach(xs[1..], sep, k - 1);
      ContainsInConcat(xs[0] + sep, Join(xs[1..], sep), "", xs[k]);
      assert xs[0] + sep + Join(xs[1..], sep) + "" == Join(xs, sep);
    }
  }

  // ---------------------------------------------------------------------
  // Decimal rendering and JavaScript parseInt
  // ---------------------------------------------------------------------

  function DigitChar(d: nat): (c: char)
    requires d < 10
    ensures IsDigit(c)
    ensures c as int - '0' as int == d
  {
    ('0' as int + d) as char
  }

  /** `String(n)` for a non-negative integer. */
  function NatToString(n: nat): (r: string)
    ensures |r| >= 1
    ensures AllDigits(r)
    decreases n
  {
    if n < 10 then [DigitChar(n)] else NatToString(n / 10) + [DigitChar(n % 10)]
  }

  /** `String(i)` (also what a template literal `${i}` renders). */
  function IntToString(i: int): (r: string)
    ensures |r| >= 1
    ensures i >= 0 ==> AllDigits(r)
    ensures i < 0 ==> r[0] == '-' && AllDigits(r[1..])
  {
    if i < 0 then "-" + NatToString(-i) else NatToString(i)
  }

  /** The value of a string of decimal digits. */
  function DigitsValue(s: string): nat
    requires AllDigits(s)
  {
    if |s| == 0 then 0
    else DigitsValue(s[..|s| - 1]) * 10 + (s[|s| - 1] as int - '0' as int)
  }

  lemma {:induction false} DigitsValueOfNatToString(n: nat)
    ensures DigitsValue(NatToString(n)) == n
    decreases n
  {
    if n >= 10 {
      var s := NatToString(n);
      assert s[..|s| - 1] == NatToString(n / 10);
      DigitsValueOfNatToString(n / 10);
    }
  }

  /** Decimal rendering is injective: distinct integers render differently. */
  lemma IntToStringInjective(i: int, j: int)
    requires IntToString(i) == IntToString(j)
    ensures i == j
  {
    var s := IntToString(i);
    assert (i < 0) == (s[0] == '-');
    assert (j < 0) == (s[0] == '-');
    if i < 0 {
      CancelPrefix("-", NatToString(-i), NatToString(-j));
      DigitsValueOfNatToString(-i);
      DigitsValueOfNatToString(-j);
    } else {
      DigitsValueOfNatToString(i);
      DigitsValueOfNatToString(j);
    }
  }

  /** Length of the longest prefix of `s` all of whose characters satisfy `p`. */
  function RunLen(s: string, p: char -> bool): (n: nat)
    ensures n <= |s|
    ensures forall i :: 0 <= i < n ==> p(s[i])
    ensures n < |s| ==> !p(s[n])
  {
    if |s| == 0 || !p(s[0]) then 0 else 1 + RunLen(s[1..], p)
  }

  /** A prefix made only of `p`-characters and followed by a character that is
      not one is exactly the maximal run. */
  lemma {:induction false} RunLenOfConcat(a: string, b: string, p: char -> bool)
    requires forall i :: 0 <= i < |a| ==> p(a[i])
    requires |b| == 0 || !p(b[0])
    ensures RunLen(a + b, p) == |a|
    decreases |a|
  {
    if |a| > 0 {
      assert (a + b)[1..] == a[1..] + b;
      RunLenOfConcat(a[1..], b, p);
    }
  }

  /** `parseInt(s)` read in base 10: leading whitespace is skipped, one sign is
      accepted, and the longest run of digits is read; no digits is `NaN`.
      The code passes no radix, so a `0x` prefix would switch to base 16;
      the texts it reads here are decimal, and that case is not modelled. */
  function ParseInt(s: string): (r: Option<int>)
    ensures (forall i :: 0 <= i < |s| ==> !IsDigit(s[i])) ==> r == None
  {
    ParseSigned(s[RunLen(s, IsSpace)..])
  }

  /** The sign, if any, then the digits. */
  function ParseSigned(t: string): (r: Option<int>)
    ensures (forall i :: 0 <= i < |t| ==> !IsDigit(t[i])) ==> r == None
  {
    if |t| > 0 && t[0] == '-' then
      match ParseDigits(t[1..])
      case None => None
      case Some(v) => Some(-v)
    else if |t| > 0 && t[0] == '+' then ParseDigits(t[1..])
    else ParseDigits(t)
  }

  /** The value of the leading run of digits; `None` when there is none. */
  function ParseDigits(u: string): (r: Option<int>)
    ensures (|u| == 0 || !IsDigit(u[0])) <==> r == None
  {
    var n := RunLen(u, IsDigit);
    if n == 0 then None else Some(DigitsValue(u[..n]))
  }

  /** `parseInt` reads a leading run of digits and stops at the first
      character that is not a digit. */
  lemma ParseDigitsOf(d: string, rest: string)
    requires |d| > 0 && AllDigits(d)
    requires |rest| == 0 || !IsDigit(rest[0])
    ensures ParseDigits(d + rest) == Some(DigitsValue(d))
  {
    RunLenOfConcat(d, rest, IsDigit);
    assert (d + rest)[..|d|] == d;
  }

  /** Without leading whitespace, `parseInt` starts at the sign. */
  lemma ParseIntNoLeadingSpace(s: string)
    requires |s| > 0 && !IsSpace(s[0])
    ensures ParseInt(s) == ParseSigned(s)
  {
    assert RunLen(s, IsSpace) == 0;
    assert s[0..] == s;
  }

  /** A text starting with a digit is read from its first character. */
  lemma ParseIntOfDigits(d: string, rest: string)
    requires |d| > 0 && AllDigits(d)
    requires |rest| == 0 || !IsDigit(rest[0])
    ensures ParseInt(d + rest) == Some(DigitsValue(d))
  {
    assert (d + rest)[0] == d[0];
    ParseIntNoLeadingSpace(d + rest);
    ParseDigitsOf(d, rest);
  }

  /** A minus sign negates what the digits after it read. */
  lemma ParseSignedMinus(u: string)
    ensures ParseSigned("-" + u) == if ParseDigits(u).Some? then Some(-ParseDigits(u).value) else None
  {
    assert ("-" + u)[1..] == u;
  }

  /** `parseInt` reads a minus sign followed by digits as the negated value. */
  lemma ParseIntOfNegative(d: string)
    requires |d| > 0 && AllDigits(d)
    ensures ParseInt("-" + d) == Some(-(DigitsValue(d) as int))
  {
    ParseIntNoLeadingSpace("-" + d);
    ParseSignedMinus(d);
    ParseDigitsOf(d, "");
    assert d + "" == d;
  }

  /** `parseInt(String(i)) == i`: reading back a rendered integer. */
  lemma ParseIntOfIntToString(i: int)
    ensures ParseInt(IntToString(i)) == Some(i)
  {
    if i < 0 {
      ParseIntOfNegativeString(-i);
    } else {
      ParseIntOfNatString(i);
    }
  }

  lemma ParseIntOfNatString(n: nat)
    ensures ParseInt(NatToString(n)) == Some(n)
  {
    var s := NatToString(n);
    ParseIntOfDigits(s, "");
    assert s + "" == s;
    DigitsValueOfNatToString(n);
  }

  lemma ParseIntOfNegativeString(n: nat)
    requires n > 0
    ensures ParseInt("-" + NatToString(n)) == Some(-(n as int))
  {
    var d := NatToString(n);
    ParseIntOfNegative(d);
    DigitsValueOfNatToString(n);
    assert DigitsValue(d) as int == n as int;
  }

  // ---------------------------------------------------------------------
  // Maximal runs (global regex matches and whitespace splits)
  // ---------------------------------------------------------------------

  /** The maximal non-empty runs of `p`-characters in `s`, left to right. */
  function Runs(s: string, p: char -> bool): (r: seq<string>)
    ensures forall k :: 0 <= k < |r| ==> |r[k]| > 0
    ensures forall k, i :: 0 <= k < |r| && 0 <= i < |r[k]| ==> p(r[k][i])
    ensures forall k, i :: 0 <= k < |r| && 0 <= i < |r[k]| ==> r[k][i] in s
    decreases |s|
  {
    if |s| == 0 then []
    else if !p(s[0]) then Runs(s[1..], p)
    else
      var n := RunLen(s, p);
      [s[..n]] + Runs(s[n..], p)
  }

  /** Gaps and runs alternating: `gaps[0] + runs[0] + gaps[1] + … + runs[n-1] + gaps[n]`. */
  function Weave(gaps: seq<string>, runs: seq<string>): string
    requires |gaps| == |runs| + 1
    decreases |runs|
  {
    if |runs| == 0 then gaps[0] else gaps[0] + runs[0] + Weave(gaps[1..], runs[1..])
  }

  /** A decomposition into maximal runs: every run is a non-empty stretch of
      `p`-characters, no gap holds one, and the gaps between two runs are
      non-empty, so no run can be extended or merged with the next. */
  predicate Separated(gaps: seq<string>, runs: seq<string>, p: char -> bool) {
    && |gaps| == |runs| + 1
    && (forall k :: 0 <= k < |runs| ==> |runs[k]| > 0)
    && (forall k, i :: 0 <= k < |runs| && 0 <= i < |runs[k]| ==> p(runs[k][i]))
    && (forall k, i :: 0 <= k < |gaps| && 0 <= i < |gaps[k]| ==> !p(gaps[k][i]))
    && (forall k :: 0 < k < |runs| ==> |gaps[k]| > 0)
  }

  /** The stretches of `s` around its runs; the first and the last may be empty. */
  function Gaps(s: string, p: char -> bool): (r: seq<string>)
    ensures |r| == |Runs(s, p)| + 1
    ensures |s| > 0 && !p(s[0]) ==> |r[0]| > 0
    decreases |s|
  {
    if |s| == 0 then [""]
    else if !p(s[0]) then
      var g := Gaps(s[1..], p);
      [[s[0]] + g[0]] + g[1..]
    else [""] + Gaps(s[RunLen(s, p)..], p)
  }

  /** `Runs` splits `s` into maximal runs: with its gaps it is a separated
      decomposition that weaves back to `s`. */
  lemma {:induction false} RunsSpec(s: string, p: char -> bool)
    ensures Separated(Gaps(s, p), Runs(s, p), p)
    ensures Weave(Gaps(s, p), Runs(s, p)) == s
    decreases |s|
  {
    if |s| == 0 {
    } else if !p(s[0]) {
      RunsSpec(s[1..], p);
      RunsSpecAfterGapChar(s, s[1..], p);
    } else {
      var t := s[RunLen(s, p)..];
      RunsSpec(t, p);
      RunsSpecAfterRun(s, t, p);
    }
  }

  /** The step of `RunsSpec` for a text that starts outside every run. */
  lemma RunsSpecAfterGapChar(s: string, t: string, p: char -> bool)
    requires |s| > 0 && !p(s[0]) && t == s[1..]
    requires Separated(Gaps(t, p), Runs(t, p), p)
    requires Weave(Gaps(t, p), Runs(t, p)) == t
    ensures Separated(Gaps(s, p), Runs(s, p), p)
    ensures Weave(Gaps(s, p), Runs(s, p)) == s
  {
    GapsAfterGapChar(s, t, p);
    SeparatedConsGap([s[0]], Gaps(t, p), Runs(t, p), p);
    assert [s[0]] + t == s;
  }

  /** A text that starts outside every run: its first character joins the first gap. */
  lemma GapsAfterGapChar(s: string, t: string, p: char -> bool)
    requires |s| > 0 && !p(s[0]) && t == s[1..]
    ensures Gaps(s, p) == [[s[0]] + Gaps(t, p)[0]] + Gaps(t, p)[1..]
    ensures Runs(s, p) == Runs(t, p)
  {
  }

  /** Characters outside every run put in front of the first gap keep a
      decomposition separated. */
  lemma SeparatedConsGap(x: string, g: seq<string>, rt: seq<string>, p: char -> bool)
    requires forall i :: 0 <= i < |x| ==> !p(x[i])
    requires Separated(g, rt, p)
    ensures Separated([x + g[0]] + g[1..], rt, p)
    ensures Weave([x + g[0]] + g[1..], rt) == x + Weave(g, rt)
  {
    WeavePrepend(x, g, rt);
    var gs := [x + g[0]] + g[1..];
    forall k, i | 0 <= k < |gs| && 0 <= i < |gs[k]| ensures !p(gs[k][i]) {
      if k == 0 {
        if i >= |x| { assert gs[0][i] == g[0][i - |x|]; }
      } else {
        assert gs[k] == g[k];
      }
    }
  }

  /** The step of `RunsSpec` for a text that starts with a run, given the
      decomposition of the text `t` after that run. */
  lemma RunsSpecAfterRun(s: string, t: string, p: char -> bool)
    requires |s| > 0 && p(s[0])
    requires t == s[RunLen(s, p)..]
    requires Separated(Gaps(t, p), Runs(t, p), p)
    requires Weave(Gaps(t, p), Runs(t, p)) == t
    ensures Separated(Gaps(s, p), Runs(s, p), p)
    ensures Weave(Gaps(s, p), Runs(s, p)) == s
  {
    var n := RunLen(s, p);
    RunsAfterRun(s, p);
    SeparatedConsRun(s[..n], Gaps(t, p), Runs(t, p), p);
    assert s == s[..n] + t;
  }

  /** A text that starts with a run: the run comes first, after an empty gap. */
  lemma RunsAfterRun(s: string, p: char -> bool)
    requires |s| > 0 && p(s[0])
    ensures Gaps(s, p) == [""] + Gaps(s[RunLen(s, p)..], p)
    ensures Runs(s, p) == [s[..RunLen(s, p)]] + Runs(s[RunLen(s, p)..], p)
    ensures RunLen(s, p) > 0
    ensures |Runs(s[RunLen(s, p)..], p)| > 0 ==> |Gaps(s[RunLen(s, p)..], p)[0]| > 0
  {
    var t := s[RunLen(s, p)..];
    assert |Runs(t, p)| > 0 ==> |t| > 0;
  }

  /** A run put in front of a separated decomposition, with an empty gap
      before it, keeps it separated. */
  lemma SeparatedConsRun(a: string, g: seq<string>, rt: seq<string>, p: char -> bool)
    requires |a| > 0 && forall i :: 0 <= i < |a| ==> p(a[i])
    requires Separated(g, rt, p)
    requires |rt| == 0 || |g[0]| > 0
    ensures Separated([""] + g, [a] + rt, p)
    ensures Weave([""] + g, [a] + rt) == a + Weave(g, rt)
  {
    var gs := [""] + g;
    var rs := [a] + rt;
    assert gs[1..] == g && rs[1..] == rt;
    assert Weave(gs, rs) == "" + a + Weave(g, rt);
    assert "" + a == a;
    forall k | 0 < k < |rs| ensures |gs[k]| > 0 {
      assert gs[k] == g[k - 1];
    }
    forall k, i | 0 <= k < |rs| && 0 <= i < |rs[k]| ensures p(rs[k][i]) {
      if k > 0 { assert rs[k] == rt[k - 1]; }
    }
    forall k, i | 0 <= k < |gs| && 0 <= i < |gs[k]| ensures !p(gs[k][i]) {
      assert gs[k] == g[k - 1];
    }
  }

  /** Prepending to the first gap prepends to the woven text. */
  lemma WeavePrepend(x: string, g: seq<string>, runs: seq<string>)
    requires |g| == |runs| + 1
    ensures Weave([x + g[0]] + g[1..], runs) == x + Weave(g, runs)
  {
    var gs := [x + g[0]] + g[1..];
    if |runs| > 0 {
      assert gs[1..] == g[1..];
      assert x + g[0] + runs[0] + Weave(g[1..], runs[1..]) == x + (g[0] + runs[0] + Weave(g[1..], runs[1..]));
    }
  }

  /** The partner of `RunsSpec`: any separated decomposition is the one
      `Runs` finds, so the runs of a woven text are the woven runs. */
  lemma {:induction false} RunsOfWeave(gaps: seq<string>, runs: seq<string>, p: char -> bool)
    requires Separated(gaps, runs, p)
    ensures Runs(Weave(gaps, runs), p) == runs
    decreases |runs|
  {
    if |runs| == 0 {
      RunsOfGapPrefix(gaps[0], "", p);
      assert gaps[0] + "" == gaps[0];
    } else {
      var rest := Weave(gaps[1..], runs[1..]);
      assert Separated(gaps[1..], runs[1..], p) by {
        forall k, i | 0 <= k < |gaps[1..]| && 0 <= i < |gaps[1..][k]| ensures !p(gaps[1..][k][i]) {
          assert gaps[1..][k] == gaps[k + 1];
        }
        forall k | 0 < k < |runs[1..]| ensures |gaps[1..][k]| > 0 {
          assert gaps[1..][k] == gaps[k + 1];
        }
        forall k, i | 0 <= k < |runs[1..]| && 0 <= i < |runs[1..][k]| ensures p(runs[1..][k][i]) {
          assert runs[1..][k] == runs[k + 1];
        }
      }
      RunsOfWeave(gaps[1..], runs[1..], p);
      WeaveHead(gaps[1..], runs[1..], p);
      RunsOfRunPrefix(runs[0], rest, p);
      RunsOfGapPrefix(gaps[0], runs[0] + rest, p);
      assert Weave(gaps, runs) == gaps[0] + (runs[0] + rest);
    }
  }

  /** `Runs(s, p)` is the one sequence of runs that a separated decomposition
      of `s` can have. */
  lemma RunsUnique(s: string, p: char -> bool)
    ensures forall gaps, runs :: Separated(gaps, runs, p) && Weave(gaps, runs) == s ==> runs == Runs(s, p)
  {
    forall gaps, runs | Separated(gaps, runs, p) && Weave(gaps, runs) == s ensures runs == Runs(s, p) {
      RunsOfWeave(gaps, runs, p);
    }
  }

  /** A woven text whose first gap is non-empty, or that has no run, starts
      outside the class. */
  lemma WeaveHead(gaps: seq<string>, runs: seq<string>, p: char -> bool)
    requires Separated(gaps, runs, p)
    requires |runs| == 0 || |gaps[0]| > 0 || |gaps| == 1
    ensures |Weave(gaps, runs)| == 0 || !p(Weave(gaps, runs)[0])
  {
    if |runs| > 0 {
      assert Weave(gaps, runs)[0] == gaps[0][0];
    }
  }

  /** Characters outside the class in front of a text add no run. */
  lemma {:induction false} RunsOfGapPrefix(g: string, t: string, p: char -> bool)
    requires forall i :: 0 <= i < |g| ==> !p(g[i])
    ensures Runs(g + t, p) == Runs(t, p)
    decreases |g|
  {
    if |g| > 0 {
      assert (g + t)[1..] == g[1..] + t;
      RunsOfGapPrefix(g[1..], t, p);
    } else {
      assert g + t == t;
    }
  }

  /** A run in front of a text that starts outside the class is its first run. */
  lemma RunsOfRunPrefix(a: string, t: string, p: char -> bool)
    requires |a| > 0 && forall i :: 0 <= i < |a| ==> p(a[i])
    requires |t| == 0 || !p(t[0])
    ensures Runs(a + t, p) == [a] + Runs(t, p)
  {
    RunLenOfConcat(a, t, p);
    assert (a + t)[0] == a[0];
    assert (a + t)[..|a|] == a && (a + t)[|a|..] == t;
  }

  /** A character outside the class separates runs: runs of the two sides are
      found independently. */
  lemma {:induction false} RunsSplit(a: string, c: char, b: string, p: char -> bool)
    requires !p(c)
    ensures Runs(a + [c] + b, p) == Runs(a, p) + Runs(b, p)
    decreases |a|
  {
    var s := a + [c] + b;
    if |a| == 0 {
      assert s[1..] == b;
    } else if !p(a[0]) {
      assert s[1..] == a[1..] + [c] + b;
      RunsSplit(a[1..], c, b, p);
    } else {
      var n := RunLen(a, p);
      RunLenBeforeSeparator(a, c, b, p);
      var rest := a[n..];
      assert s[..n] == a[..n];
      assert s[n..] == rest + [c] + b;
      RunsSplit(rest, c, b, p);
      assert s[0] == a[0];
      assert Runs(s, p) == [a[..n]] + Runs(rest + [c] + b, p);
      assert Runs(a, p) == [a[..n]] + Runs(rest, p);
    }
  }

  /** The first run of `a` is not extended past a separator. */
  lemma RunLenBeforeSeparator(a: string, c: char, b: string, p: char -> bool)
    requires !p(c)
    ensures RunLen(a + [c] + b, p) == RunLen(a, p)
  {
    var n := RunLen(a, p);
    assert a == a[..n] + a[n..];
    assert a + [c] + b == a[..n] + (a[n..] + [c] + b);
    RunLenOfConcat(a[..n], a[n..] + [c] + b, p);
  }

  /** Runs of the characters of a joined list whose separator lies outside
      the class are the runs of the elements, concatenated. */
  lemma {:induction false} RunsOfJoin(xs: seq<string>, c: char, p: char -> bool)
    requires !p(c)
    ensures Runs(Join(xs, [c]), p) == RunsOfEach(xs, p)
  {
    if |xs| == 0 {
    } else if |xs| == 1 {
      assert RunsOfEach(xs, p) == Runs(xs[0], p) + RunsOfEach(xs[1..], p);
    } else {
      RunsSplit(xs[0], c, Join(xs[1..], [c]), p);
      RunsOfJoin(xs[1..], c, p);
    }
  }

  /** The runs of every element, in order. */
  function RunsOfEach(xs: seq<string>, p: char -> bool): seq<string>
  {
    if |xs| == 0 then [] else Runs(xs[0], p) + RunsOfEach(xs[1..], p)
  }

  /** `s.replace(/\s+/g, '_')`: every maximal whitespace run becomes one `_`. */
  function CollapseSpaces(s: string): (r: string)
    ensures forall i :: 0 <= i < |r| ==> !IsSpace(r[i])
    ensures |r| <= |s|
    ensures (forall i :: 0 <= i < |s| ==> !IsSpace(s[i])) ==> r == s
    decreases |s|
  {
    if |s| == 0 then ""
    else if IsSpace(s[0]) then "_" + CollapseSpaces(s[RunLen(s, IsSpace)..])
    else [s[0]] + CollapseSpaces(s[1..])
  }
}
