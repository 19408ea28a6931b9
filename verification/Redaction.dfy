/** Masking of registered secrets in error texts: what is masked, and the cache of secret
    variants that must agree with the registry behind it. */
module Redaction {
  import opened Text

  const MASK := '*'

  function Stars(n: nat): (r: string)
    ensures |r| == n && forall i :: 0 <= i < n ==> r[i] == MASK
  {
    seq(n, i => MASK)
  }

  predicate StarFree(s: string) {
    MASK !in s
  }

  // ----- Replacing one variant -----

  /** strings.ReplaceAll with a mask of the same length: left to right, not overlapping.
      (An empty pattern has an empty mask, so nothing changes.) */
  function MaskAll(s: string, v: string): string {
    if v == "" || |s| < |v| then s
    else if v <= s then Stars(|v|) + MaskAll(s[|v|..], v)
    else [s[0]] + MaskAll(s[1..], v)
  }

  /** `r` is `s` with some runes masked. */
  ghost predicate Masks(r: string, s: string) {
    |r| == |s| && forall i :: 0 <= i < |s| ==> r[i] == s[i] || r[i] == MASK
  }

  lemma {:induction false} MaskAllMasks(s: string, v: string)
    ensures Masks(MaskAll(s, v), s)
  {
    if v == "" || |s| < |v| {
    } else if v <= s {
      MaskAllMasks(s[|v|..], v);
    } else {
      MaskAllMasks(s[1..], v);
    }
  }

  /** A star-free pattern has no occurrence left after it has been replaced. */
  lemma {:induction false} MaskAllRemoves(s: string, v: string, i: nat)
    requires v != "" && StarFree(v)
    ensures !OccursAt(MaskAll(s, v), v, i)
  {
    var r := MaskAll(s, v);
    if |s| < |v| {
      MaskAllMasks(s, v);
    } else if v <= s {
      var rest := MaskAll(s[|v|..], v);
      if i < |v| {
        MaskBlocks(r, v, i, 0);
      } else {
        MaskAllRemoves(s[|v|..], v, i - |v|);
        ShiftOccurrence(Stars(|v|), rest, v, i);
      }
    } else if i == 0 {
      MaskAllMasks(s, v);
      OccurrenceIsOriginal(r, s, v, 0);
    } else {
      MaskAllRemoves(s[1..], v, i - 1);
      ShiftOccurrence([s[0]], MaskAll(s[1..], v), v, i);
    }
  }

  lemma ShiftOccurrence(head: string, tail: string, v: string, i: nat)
    requires i >= |head|
    ensures OccursAt(head + tail, v, i) <==> OccursAt(tail, v, i - |head|)
  {
    if i + |v| <= |head + tail| {
      assert (head + tail)[i..i + |v|] == tail[i - |head|..i - |head| + |v|];
    }
  }

  /** Where a star-free string occurs in a masked text, it occurred in the text itself. */
  lemma OccurrenceIsOriginal(r: string, s: string, v: string, i: nat)
    requires Masks(r, s) && StarFree(v)
    ensures OccursAt(r, v, i) ==> OccursAt(s, v, i)
  {
    if OccursAt(r, v, i) {
      forall k | 0 <= k < |v|
        ensures s[i + k] == v[k]
      {
        assert r[i..i + |v|][k] == r[i + k];
        assert v[k] in v;
      }
      assert s[i..i + |v|] == v;
    }
  }

  /** A masked rune is in no occurrence of a star-free string. */
  lemma MaskBlocks(r: string, v: string, i: nat, k: nat)
    requires StarFree(v) && k < |v| && i + k < |r| && r[i + k] == MASK
    ensures !OccursAt(r, v, i)
  {
    assert v[k] in v;
    assert i + |v| <= |r| ==> r[i..i + |v|][k] == r[i + k];
  }

  // ----- Replacing every variant of the cache -----

  /** The replacements one after another, in the order of the cache. */
  function MaskEach(text: string, cache: seq<string>): string {
    if cache == [] then text
    else MaskAll(MaskEach(text, cache[..|cache| - 1]), cache[|cache| - 1])
  }

  lemma {:induction false} MaskEachMasks(text: string, cache: seq<string>)
    ensures Masks(MaskEach(text, cache), text)
  {
    hide MaskAll;
    if cache != [] {
      MaskEachMasks(text, cache[..|cache| - 1]);
      MaskAllMasks(MaskEach(text, cache[..|cache| - 1]), cache[|cache| - 1]);
    }
  }

  /** Completeness: no star-free variant of the cache occurs in the redacted text, although
      later replacements change what earlier ones have left. */
  lemma {:induction false} RedactionIsComplete(text: string, cache: seq<string>, v: string)
    requires v in cache && v != "" && StarFree(v)
    ensures !Contains(MaskEach(text, cache), v)
  {
    hide MaskAll;
    var init, last := cache[..|cache| - 1], cache[|cache| - 1];
    var before, after := MaskEach(text, init), MaskEach(text, cache);
    if v == last {
      forall i: nat
        ensures !OccursAt(after, v, i)
      {
        MaskAllRemoves(before, v, i);
      }
    } else {
      assert cache == init + [last];
      RedactionIsComplete(text, init, v);
      MaskAllMasks(before, last);
      forall i: nat
        ensures OccursAt(after, v, i) ==> OccursAt(before, v, i)
      {
        OccurrenceIsOriginal(after, before, v, i);
      }
    }
  }

  /** A rune within an occurrence of v. */
  predicate Covered(text: string, v: string, i: nat) {
    exists j :: 0 <= j <= i < j + |v| && OccursAt(text, v, j)
  }

  /** Replacing masks only runes of occurrences. */
  lemma {:induction false} MaskAllIsPrecise(s: string, v: string, i: nat)
    requires i < |s| && |MaskAll(s, v)| == |s| && MaskAll(s, v)[i] != s[i]
    ensures Covered(s, v, i)
  {
    if v == "" || |s| < |v| {
    } else if v <= s {
      var tail := s[|v|..];
      MaskAllMasks(tail, v);
      if i < |v| {
        assert OccursAt(s, v, 0);
      } else {
        MaskAllIsPrecise(tail, v, i - |v|);
        CoveredInTail(s, |v|, v, i - |v|);
      }
    } else {
      MaskAllMasks(s[1..], v);
      if i > 0 {
        MaskAllIsPrecise(s[1..], v, i - 1);
        CoveredInTail(s, 1, v, i - 1);
      }
    }
  }

  lemma CoveredInTail(s: string, cut: nat, v: string, i: nat)
    requires cut <= |s| && Covered(s[cut..], v, i)
    ensures Covered(s, v, cut + i)
  {
    var j :| 0 <= j <= i < j + |v| && OccursAt(s[cut..], v, j);
    assert s == s[..cut] + s[cut..];
    ShiftOccurrence(s[..cut], s[cut..], v, cut + j);
  }

  /** v fits the text at j, up to the stars v has itself. */
  predicate FitsAt(text: string, v: string, j: nat) {
    j + |v| <= |text| && forall k :: 0 <= k < |v| ==> v[k] == MASK || text[j + k] == v[k]
  }

  /** A rune within a place that v fits. */
  predicate Explains(text: string, v: string, i: nat) {
    exists j :: 0 <= j <= i < j + |v| && FitsAt(text, v, j)
  }

  /** Without a star, fitting is occurring. */
  lemma ExplainedIsCovered(text: string, v: string, i: nat)
    requires StarFree(v)
    ensures Explains(text, v, i) <==> Covered(text, v, i)
  {
    forall j: nat
      ensures FitsAt(text, v, j) <==> OccursAt(text, v, j)
    {
      if j + |v| <= |text| {
        var place := text[j..j + |v|];
        assert forall k :: 0 <= k < |v| ==> place[k] == text[j + k];
      }
    }
  }

  lemma OccurrenceFits(r: string, s: string, v: string, j: nat)
    requires Masks(r, s) && OccursAt(r, v, j)
    ensures FitsAt(s, v, j)
  {
    forall k | 0 <= k < |v|
      ensures v[k] == r[j + k]
    {
      assert r[j..j + |v|][k] == r[j + k];
    }
  }

  /** Precision: a rune is masked only where some variant of the cache fits the original text. */
  lemma {:induction false} RedactionIsPrecise(text: string, cache: seq<string>, i: nat)
    requires i < |text| == |MaskEach(text, cache)| && MaskEach(text, cache)[i] != text[i]
    ensures exists v :: v in cache && Explains(text, v, i)
  {
    hide MaskAll, FitsAt;
    if cache != [] {
      var init, last := cache[..|cache| - 1], cache[|cache| - 1];
      assert cache == init + [last];
      MaskEachMasks(text, init);
      var before := MaskEach(text, init);
      if before[i] != text[i] {
        RedactionIsPrecise(text, init, i);
      } else {
        MaskAllMasks(before, last);
        MaskAllIsPrecise(before, last, i);
        var j :| 0 <= j <= i < j + |last| && OccursAt(before, last, j);
        OccurrenceFits(before, text, last, j);
        assert Explains(text, last, i);
      }
    }
  }

  // ----- When nothing happens -----

  /** Replacing what does not occur changes nothing. */
  lemma {:induction false} MaskAllSkips(s: string, v: string)
    requires !Contains(s, v)
    ensures MaskAll(s, v) == s
  {
    assert !OccursAt(s, v, 0);
    if |s| >= |v| && v != "" {
      assert s == [s[0]] + s[1..];
      forall j: nat
        ensures !OccursAt(s[1..], v, j)
      {
        ShiftOccurrence([s[0]], s[1..], v, j + 1);
        assert j + 1 <= |s| ==> !OccursAt(s, v, j + 1);
      }
      MaskAllSkips(s[1..], v);
    }
  }

  lemma {:induction false} MaskEachSkips(text: string, cache: seq<string>)
    requires forall v :: v in cache ==> MaskAll(text, v) == text
    ensures MaskEach(text, cache) == text
  {
    hide MaskAll;
    if cache != [] {
      var init, last := cache[..|cache| - 1], cache[|cache| - 1];
      assert cache == init + [last];
      MaskEachSkips(text, init);
    }
  }

  lemma {:induction false} MaskEachAppend(text: string, a: seq<string>, b: seq<string>)
    ensures MaskEach(text, a + b) == MaskEach(MaskEach(text, a), b)
  {
    hide MaskAll;
    if b == [] {
      assert a + b == a;
    } else {
      assert (a + b)[..|a + b| - 1] == a + b[..|b| - 1];
      MaskEachAppend(text, a, b[..|b| - 1]);
    }
  }

  lemma {:induction false} MaskAllRune(s: string, c: char)
    ensures |MaskAll(s, [c])| == |s|
    ensures forall k :: 0 <= k < |s| ==> MaskAll(s, [c])[k] == if s[k] == c then MASK else s[k]
  {
    if s != "" {
      MaskAllRune(s[1..], c);
      assert [c] <= s <==> s[0] == c;
    }
  }
}
