/** Frequency tallies kept in a JavaScript `Map`: `map.set(w, (map.get(w) || 0) + d)`
    applied word after word. A `Map` iterates in first-insertion order, so the
    tally is a sequence of entries, one per distinct word, in the order the
    words first appeared. */
module Tally {

  /** One `[text, weight]` pair of `Array.from(map.entries())`. */
  datatype Entry = Entry(text: string, weight: real)

  /** One `map.set` step: add `delta` to the weight of `word`. */
  datatype Increment = Increment(word: string, delta: real)

  function Texts(es: seq<Entry>): (r: seq<string>)
    ensures |r| == |es|
    ensures forall i :: 0 <= i < |es| ==> r[i] == es[i].text
  {
    seq(|es|, i requires 0 <= i < |es| => es[i].text)
  }

  function Words(items: seq<Increment>): (r: seq<string>)
    ensures |r| == |items|
    ensures forall i :: 0 <= i < |items| ==> r[i] == items[i].word
  {
    seq(|items|, i requires 0 <= i < |items| => items[i].word)
  }

  predicate Distinct(ws: seq<string>) {
    forall i, j :: 0 <= i < j < |ws| ==> ws[i] != ws[j]
  }

  /** `map.set(w, (map.get(w) || 0) + d)`: the first entry for `w` is updated
      in place, or a new entry is appended at the end. */
  function Bump(es: seq<Entry>, w: string, d: real): (r: seq<Entry>)
    ensures |r| == |es| || |r| == |es| + 1
  {
    if |es| == 0 then [Entry(w, d)]
    else if es[0].text == w then [Entry(w, es[0].weight + d)] + es[1..]
    else [es[0]] + Bump(es[1..], w, d)
  }

  /** The keys after a `set`: unchanged when `w` was present, else `w` is
      appended. */
  lemma {:induction false} BumpTexts(es: seq<Entry>, w: string, d: real)
    ensures Texts(Bump(es, w, d)) == if w in Texts(es) then Texts(es) else Texts(es) + [w]
  {
    if |es| == 0 {
    } else if es[0].text == w {
      assert Texts(es)[0] == w;
      assert Texts(Bump(es, w, d)) == Texts(es);
    } else {
      var tail := es[1..];
      BumpTexts(tail, w, d);
      assert es == [es[0]] + tail;
      TextsCons(es[0], tail);
      TextsCons(es[0], Bump(tail, w, d));
      assert w in Texts(es) <==> w in Texts(tail);
      if w !in Texts(tail) {
        assert [es[0].text] + (Texts(tail) + [w]) == [es[0].text] + Texts(tail) + [w];
      }
    }
  }

  lemma TextsCons(e: Entry, es: seq<Entry>)
    ensures Texts([e] + es) == [e.text] + Texts(es)
  {
  }

  /** With distinct keys, exactly the entry for `w` gains `d`; a new word
      starts at `d`. */
  lemma {:induction false} BumpWeights(es: seq<Entry>, w: string, d: real)
    requires Distinct(Texts(es))
    ensures var r := Bump(es, w, d);
      forall i :: 0 <= i < |r| ==>
        r[i].weight == (if i < |es| then es[i].weight else 0.0) + (if r[i].text == w then d else 0.0)
  {
    if |es| > 0 && es[0].text != w {
      var tail := es[1..];
      assert Distinct(Texts(tail)) by {
        assert forall i :: 0 <= i < |tail| ==> Texts(tail)[i] == Texts(es)[i + 1];
      }
      BumpWeights(tail, w, d);
      var rt := Bump(tail, w, d);
      var r := Bump(es, w, d);
      assert r == [es[0]] + rt;
      forall i | 0 <= i < |r|
        ensures r[i].weight == (if i < |es| then es[i].weight else 0.0) + (if r[i].text == w then d else 0.0)
      {
        if i > 0 {
          assert r[i] == rt[i - 1];
          assert i - 1 < |tail| ==> tail[i - 1] == es[i];
        }
      }
    } else if |es| > 0 {
      BumpWeightsAtHead(es, w, d);
    }
  }

  /** The case where the first entry is the word's: it alone gains `d`. */
  lemma BumpWeightsAtHead(es: seq<Entry>, w: string, d: real)
    requires Distinct(Texts(es))
    requires |es| > 0 && es[0].text == w
    ensures var r := Bump(es, w, d);
      forall i :: 0 <= i < |r| ==>
        r[i].weight == (if i < |es| then es[i].weight else 0.0) + (if r[i].text == w then d else 0.0)
  {
    var r := Bump(es, w, d);
    assert r == [Entry(w, es[0].weight + d)] + es[1..];
    forall i | 0 <= i < |r|
      ensures r[i].weight == (if i < |es| then es[i].weight else 0.0) + (if r[i].text == w then d else 0.0)
    {
      if i > 0 {
        assert r[i] == es[i];
        assert Texts(es)[0] != Texts(es)[i];
      }
    }
  }

  /** The tally after every increment, in order (a left fold). */
  function TallyAll(items: seq<Increment>): seq<Entry>
  {
    if |items| == 0 then []
    else
      var last := items[|items| - 1];
      Bump(TallyAll(items[..|items| - 1]), last.word, last.delta)
  }

  /** Each word at its first occurrence, in order. */
  function FirstOccurrences(ws: seq<string>): (r: seq<string>)
    ensures forall x :: x in r <==> x in ws
    ensures Distinct(r)
  {
    if |ws| == 0 then []
    else
      var init := ws[..|ws| - 1];
      var last := ws[|ws| - 1];
      assert ws == init + [last];
      FirstOccurrences(init) + (if last in init then [] else [last])
  }

  /** The total of the deltas added to `w`. */
  function SumFor(items: seq<Increment>, w: string): real
  {
    if |items| == 0 then 0.0
    else
      var last := items[|items| - 1];
      SumFor(items[..|items| - 1], w) + (if last.word == w then last.delta else 0.0)
  }

  lemma {:induction false} SumForAbsent(items: seq<Increment>, w: string)
    requires w !in Words(items)
    ensures SumFor(items, w) == 0.0
  {
    if |items| > 0 {
      var init := items[..|items| - 1];
      assert forall i :: 0 <= i < |init| ==> Words(init)[i] == Words(items)[i];
      SumForAbsent(init, w);
    }
  }

  /** The deltas for `w` in two runs of steps add up. */
  lemma {:induction false} SumForConcat(a: seq<Increment>, b: seq<Increment>, w: string)
    ensures SumFor(a + b, w) == SumFor(a, w) + SumFor(b, w)
    decreases |b|
  {
    if |b| == 0 {
      assert a + b == a;
    } else {
      var init := b[..|b| - 1];
      assert (a + b)[..|a + b| - 1] == a + init;
      SumForConcat(a, init, w);
    }
  }

  /** `n` additions of `d`. */
  function Times(n: nat, d: real): real
  {
    if n == 0 then 0.0 else Times(n - 1, d) + d
  }

  lemma {:induction false} TimesIsProduct(n: nat, d: real)
    ensures Times(n, d) == (n as real) * d
  {
    if n > 0 {
      TimesIsProduct(n - 1, d);
    }
  }

  lemma {:induction false} TimesAdd(m: nat, n: nat, d: real)
    ensures Times(m + n, d) == Times(m, d) + Times(n, d)
    decreases n
  {
    if n > 0 {
      TimesAdd(m, n - 1, d);
    }
  }

  /** Steps made one per word, each adding `delta`. */
  lemma StepsForWords(items: seq<Increment>, ws: seq<string>, delta: real)
    requires |items| == |ws|
    requires forall i :: 0 <= i < |items| ==> items[i] == Increment(ws[i], delta)
    ensures Words(items) == ws
    ensures forall i :: 0 <= i < |items| ==> items[i].delta == delta
  {
  }

  /** When every step adds the same `delta`, a word's total is `delta` once
      per step for it. */
  lemma {:induction false} SumForUniform(items: seq<Increment>, delta: real, w: string)
    requires forall i :: 0 <= i < |items| ==> items[i].delta == delta
    ensures SumFor(items, w) == Times(multiset(Words(items))[w], delta)
    decreases |items|
  {
    if |items| > 0 {
      var init := items[..|items| - 1];
      assert Words(items) == Words(init) + [items[|items| - 1].word];
      SumForUniform(init, delta, w);
    }
  }

  /** `SumForConcat` for a sequence known to be a concatenation. */
  lemma SumForOfConcat(items: seq<Increment>, a: seq<Increment>, b: seq<Increment>, w: string)
    requires items == a + b
    ensures SumFor(items, w) == SumFor(a, w) + SumFor(b, w)
  {
    SumForConcat(a, b, w);
  }

  /** One step adds its delta to its own word and nothing to any other. */
  lemma SumForOne(x: Increment, w: string)
    ensures SumFor([x], w) == if x.word == w then x.delta else 0.0
  {
    assert [x][..0] == [];
  }

  /** The tally has one entry per distinct word, in first-occurrence order. */
  lemma {:induction false} TallyAllTexts(items: seq<Increment>)
    ensures Texts(TallyAll(items)) == FirstOccurrences(Words(items))
    ensures Distinct(Texts(TallyAll(items)))
  {
    if |items| > 0 {
      var init := items[..|items| - 1];
      var last := items[|items| - 1];
      TallyAllTexts(init);
      BumpTexts(TallyAll(init), last.word, last.delta);
      FirstOccurrencesOfItems(items);
    }
  }

  /** `FirstOccurrences` of the words, one increment at a time. */
  lemma FirstOccurrencesOfItems(items: seq<Increment>)
    requires |items| > 0
    ensures FirstOccurrences(Words(items)) ==
      var init := items[..|items| - 1];
      var w := items[|items| - 1].word;
      FirstOccurrences(Words(init)) + (if w in Words(init) then [] else [w])
  {
    var init := items[..|items| - 1];
    assert Words(items)[..|items| - 1] == Words(init);
  }

  /** Each entry's weight is the total added for its word. */
  lemma {:induction false} TallyAllWeights(items: seq<Increment>)
    ensures forall i :: 0 <= i < |TallyAll(items)| ==>
      TallyAll(items)[i].weight == SumFor(items, TallyAll(items)[i].text)
  {
    if |items| > 0 {
      var init := items[..|items| - 1];
      var last := items[|items| - 1];
      var t0 := TallyAll(init);
      TallyAllWeights(init);
      TallyAllTexts(init);
      BumpTexts(t0, last.word, last.delta);
      BumpWeights(t0, last.word, last.delta);
      var t := TallyAll(items);
      assert t == Bump(t0, last.word, last.delta);
      forall i | 0 <= i < |t| ensures t[i].weight == SumFor(items, t[i].text) {
        assert Texts(t)[i] == t[i].text;
        if i < |t0| {
          assert Texts(t0)[i] == t0[i].text;
          assert t[i].text == t0[i].text;
        } else {
          assert last.word !in Texts(t0);
          assert t[i].text == last.word;
          assert last.word !in Words(init);
          SumForAbsent(init, last.word);
        }
      }
    }
  }

  /** A permutation of a tally with distinct keys has distinct keys. */
  lemma DistinctPermutation(tally: seq<Entry>, s: seq<Entry>)
    requires Distinct(Texts(tally))
    requires multiset(s) == multiset(tally)
    ensures Distinct(Texts(s))
  {
    forall i, j | 0 <= i < j < |s| ensures Texts(s)[i] != Texts(s)[j] {
      EntriesWithSameText(tally, s, i, j);
    }
  }

  /** A prefix of a tally with distinct keys has distinct keys. */
  lemma DistinctOfPrefix(s: seq<Entry>, r: seq<Entry>)
    requires Distinct(Texts(s))
    requires |r| <= |s| && forall i :: 0 <= i < |r| ==> r[i] == s[i]
    ensures Distinct(Texts(r))
  {
    forall i, j | 0 <= i < j < |r| ensures Texts(r)[i] != Texts(r)[j] {
      assert Texts(s)[i] != Texts(s)[j];
    }
  }

  /** Two positions of a permutation of a tally with distinct keys that hold
      the same key hold the same entry of the tally twice, which a multiset
      count rules out. */
  lemma EntriesWithSameText(tally: seq<Entry>, sorted: seq<Entry>, i: int, j: int)
    requires Distinct(Texts(tally))
    requires multiset(sorted) == multiset(tally)
    requires 0 <= i < j < |sorted|
    ensures sorted[i].text != sorted[j].text
  {
    if sorted[i].text == sorted[j].text {
      assert sorted[i] in multiset(tally) && sorted[j] in multiset(tally);
      var a :| 0 <= a < |tally| && tally[a] == sorted[i];
      var b :| 0 <= b < |tally| && tally[b] == sorted[j];
      assert Texts(tally)[a] == Texts(tally)[b];
      assert a == b;
      assert sorted[i] == sorted[j];
      MultisetCountTwo(sorted, i, j);
      DistinctCountOne(tally, a);
      assert false;
    }
  }

  /** Every word with a step has an entry in the tally, carrying its total. */
  lemma TallyEntryFor(items: seq<Increment>, w: string) returns (j: int)
    requires w in Words(items)
    ensures 0 <= j < |TallyAll(items)| && TallyAll(items)[j].text == w
    ensures TallyAll(items)[j].weight == SumFor(items, w)
    ensures Distinct(Texts(TallyAll(items)))
  {
    var tally := TallyAll(items);
    TallyAllTexts(items);
    TallyAllWeights(items);
    assert w in Texts(tally);
    j :| 0 <= j < |tally| && Texts(tally)[j] == w;
  }

  /** An entry of a tally with distinct words whose word is not among those
      of `r` is among the entries `r` leaves out. */
  lemma LeftOutEntry(tally: seq<Entry>, r: seq<Entry>, j: int)
    requires Distinct(Texts(tally))
    requires 0 <= j < |tally| && tally[j].text !in Texts(r)
    ensures tally[j] in multiset(tally) - multiset(r)
  {
    DistinctCountOne(tally, j);
    assert tally[j] !in r;
  }

  lemma MultisetCountTwo(s: seq<Entry>, i: int, j: int)
    requires 0 <= i < j < |s| && s[i] == s[j]
    ensures multiset(s)[s[i]] >= 2
  {
    assert s == s[..i] + [s[i]] + s[i + 1..j] + [s[j]] + s[j + 1..];
  }

  lemma {:induction false} DistinctCountOne(s: seq<Entry>, a: int)
    requires Distinct(Texts(s))
    requires 0 <= a < |s|
    ensures multiset(s)[s[a]] == 1
  {
    assert s == s[..a] + [s[a]] + s[a + 1..];
    forall k | 0 <= k < |s| && k != a ensures s[k] != s[a] {
      assert Texts(s)[k] != Texts(s)[a];
    }
    NotInCount(s[..a], s[a]);
    NotInCount(s[a + 1..], s[a]);
  }

  lemma NotInCount(s: seq<Entry>, x: Entry)
    requires forall k :: 0 <= k < |s| ==> s[k] != x
    ensures multiset(s)[x] == 0
  {
  }
}
