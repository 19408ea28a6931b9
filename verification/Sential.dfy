/** The n-gram overlap detector: a sliding window of runes, the queue of its n-grams,
    and an incremental index (counts and support) of that queue. The specification
    forgets the index and speaks of the text alone. */
module SentialDetector {
  import opened Text

  const DEFAULT_NGRAM_SIZE := 10
  const DEFAULT_WINDOW_SIZE := 1000
  const DEFAULT_OVERLAP_THRESHOLD := 0.75

  datatype SentialOptions = SentialOptions(ngramSize: int, windowSize: int, overlapThreshold: real)

  datatype SentialResult = SentialResult(hit: bool, overlap: real, matchedGrams: nat, newGrams: nat)

  /** How many n-grams a text of the given length has. */
  function GramCount(length: nat, n: nat): nat
    requires n >= 1
  {
    if length < n then 0 else length - n + 1
  }

  /** The n-gram that starts at position i. */
  function Gram(text: string, n: nat, i: nat): string
    requires i + n <= |text|
  {
    text[i..i + n]
  }

  /** The n-grams of a text, in order of position. */
  function Grams(text: string, n: nat): (grams: seq<string>)
    requires n >= 1
  {
    seq(GramCount(|text|, n), i requires 0 <= i < GramCount(|text|, n) => Gram(text, n, i))
  }

  /** The last `size` runes of a text, or all of it when it is shorter. */
  function LastRunes(text: string, size: nat): string {
    if |text| <= size then text else text[|text| - size..]
  }

  /** The grams of `window + incoming` that end inside `incoming`. */
  function NewGrams(window: string, incoming: string, n: nat): seq<string>
    requires n >= 1
  {
    Grams(window + incoming, n)[GramCount(|window|, n)..]
  }

  /** How many entries of `grams` occur in `history`. */
  function CountMatches(grams: seq<string>, history: seq<string>): (count: nat)
    ensures count <= |grams|
  {
    if grams == [] then 0
    else CountMatches(grams[..|grams| - 1], history) + if grams[|grams| - 1] in history then 1 else 0
  }

  /** What an inspection means: compare the new grams with every gram of the window,
      with no index and no incremental state. */
  function Verdict(window: string, incoming: string, n: nat, threshold: real): SentialResult
    requires n >= 1
  {
    var added := NewGrams(window, incoming, n);
    var matched := CountMatches(added, Grams(window, n));
    var overlap := Overlap(matched, |added|);
    SentialResult(overlap > threshold, overlap, matched, |added|)
  }

  function Overlap(matched: nat, added: nat): real {
    if added == 0 then 0.0 else matched as real / added as real
  }

  // ----- What an inspection means, without grams or a count -----

  /** The n runes at position i of window and chunk end inside the chunk. */
  predicate EndsInside(window: string, incoming: string, n: nat, i: nat) {
    |window| < i + n <= |window + incoming|
  }

  /** They are found inside the window as well. */
  predicate Recurs(window: string, incoming: string, n: nat, i: nat)
    requires i + n <= |window + incoming|
  {
    Contains(window, (window + incoming)[i..i + n])
  }

  function PlacesBelow(window: string, incoming: string, n: nat, bound: nat): set<nat> {
    set i: nat | i < bound && EndsInside(window, incoming, n, i)
  }

  function RecurringBelow(window: string, incoming: string, n: nat, bound: nat): set<nat> {
    set i: nat | i < bound && EndsInside(window, incoming, n, i) && Recurs(window, incoming, n, i)
  }

  /** The counts are those of places, and a hit is a share of recurring places above the
      threshold. */
  ghost predicate Compares(r: SentialResult, window: string, incoming: string, n: nat, threshold: real) {
    && r.newGrams == |set i: nat | i <= |window + incoming| && EndsInside(window, incoming, n, i)|
    && r.matchedGrams == |set i: nat |
         i <= |window + incoming| && EndsInside(window, incoming, n, i) && Recurs(window, incoming, n, i)|
    && (r.hit <==> r.newGrams > 0 && r.matchedGrams as real > threshold * r.newGrams as real)
    && (r.newGrams > 0 ==> r.overlap * r.newGrams as real == r.matchedGrams as real)
    && (r.newGrams == 0 ==> r.overlap == 0.0)
  }

  lemma InHistory(window: string, n: nat, gram: string)
    requires n >= 1 && |gram| == n
    ensures gram in Grams(window, n) <==> Contains(window, gram)
  {
    var grams := Grams(window, n);
    if Contains(window, gram) {
      var j :| 0 <= j <= |window| && OccursAt(window, gram, j);
      assert grams[j] == gram;
    }
    if gram in grams {
      var j :| 0 <= j < |grams| && grams[j] == gram;
      assert OccursAt(window, gram, j);
    }
  }

  lemma NewGramAt(window: string, incoming: string, n: nat, i: nat)
    requires n >= 1 && EndsInside(window, incoming, n, i)
    ensures 0 <= i - GramCount(|window|, n) < |NewGrams(window, incoming, n)|
    ensures NewGrams(window, incoming, n)[i - GramCount(|window|, n)] in Grams(window, n)
            <==> Recurs(window, incoming, n, i)
  {
    hide Contains;
    InHistory(window, n, (window + incoming)[i..i + n]);
  }

  lemma CountSnoc(grams: seq<string>, history: seq<string>, m: nat)
    requires m < |grams|
    ensures CountMatches(grams[..m + 1], history)
            == CountMatches(grams[..m], history) + if grams[m] in history then 1 else 0
  {
    assert grams[..m + 1][..m] == grams[..m];
  }

  /** The first m new grams, counted by where they start. */
  lemma {:induction false} CountsPlaces(window: string, incoming: string, n: nat, m: nat)
    requires n >= 1 && m <= |NewGrams(window, incoming, n)|
    ensures var bound := GramCount(|window|, n) + m;
            && |PlacesBelow(window, incoming, n, bound)| == m
            && |RecurringBelow(window, incoming, n, bound)|
               == CountMatches(NewGrams(window, incoming, n)[..m], Grams(window, n))
  {
    hide Recurs, Grams, NewGrams, PlacesBelow, RecurringBelow, CountMatches;
    if m == 0 {
      NoPlaces(window, incoming, n);
    } else {
      CountsPlaces(window, incoming, n, m - 1);
      CountSnoc(NewGrams(window, incoming, n), Grams(window, n), m - 1);
      NewGramsMany(window, incoming, n);
      NewGramAt(window, incoming, n, GramCount(|window|, n) + m - 1);
      OnePlace(window, incoming, n, GramCount(|window|, n) + m - 1);
    }
  }

  lemma NewGramsMany(window: string, incoming: string, n: nat)
    requires n >= 1
    ensures |NewGrams(window, incoming, n)| == GramCount(|window + incoming|, n) - GramCount(|window|, n)
  {
  }

  lemma NoPlaces(window: string, incoming: string, n: nat)
    requires n >= 1
    ensures PlacesBelow(window, incoming, n, GramCount(|window|, n)) == {}
    ensures RecurringBelow(window, incoming, n, GramCount(|window|, n)) == {}
    ensures NewGrams(window, incoming, n)[..0] == [] && CountMatches([], Grams(window, n)) == 0
  {
  }

  lemma OnePlace(window: string, incoming: string, n: nat, i: nat)
    requires EndsInside(window, incoming, n, i)
    ensures |PlacesBelow(window, incoming, n, i + 1)| == |PlacesBelow(window, incoming, n, i)| + 1
    ensures |RecurringBelow(window, incoming, n, i + 1)|
            == |RecurringBelow(window, incoming, n, i)| + if Recurs(window, incoming, n, i) then 1 else 0
  {
    hide Recurs;
    assert PlacesBelow(window, incoming, n, i + 1) == PlacesBelow(window, incoming, n, i) + {i};
    var recurring := RecurringBelow(window, incoming, n, i);
    assert RecurringBelow(window, incoming, n, i + 1)
      == if Recurs(window, incoming, n, i) then recurring + {i} else recurring;
  }

  /** All places are below the bound that the last new gram sets. */
  lemma AllPlaces(window: string, incoming: string, n: nat)
    requires n >= 1
    ensures var bound, all := GramCount(|window|, n) + |NewGrams(window, incoming, n)|, |window + incoming|;
            && PlacesBelow(window, incoming, n, bound)
               == (set i: nat | i <= all && EndsInside(window, incoming, n, i))
            && RecurringBelow(window, incoming, n, bound)
               == (set i: nat | i <= all && EndsInside(window, incoming, n, i) && Recurs(window, incoming, n, i))
  {
    hide Recurs;
    NewGramsMany(window, incoming, n);
  }

  /** The verdict on a chunk, place by place. */
  lemma VerdictCompares(window: string, incoming: string, n: nat, threshold: real)
    requires n >= 1 && threshold > 0.0
    ensures Compares(Verdict(window, incoming, n, threshold), window, incoming, n, threshold)
  {
    hide Recurs, Grams, NewGrams, EndsInside, PlacesBelow, RecurringBelow, Overlap;
    var added := NewGrams(window, incoming, n);
    CountsPlaces(window, incoming, n, |added|);
    AllPlaces(window, incoming, n);
    assert added[..|added|] == added;
    ShareAbove(CountMatches(added, Grams(window, n)), |added|, threshold);
  }

  lemma ShareAbove(matched: nat, added: nat, threshold: real)
    requires matched <= added && threshold > 0.0
    ensures Overlap(matched, added) > threshold <==> added > 0 && matched as real > threshold * added as real
    ensures added > 0 ==> Overlap(matched, added) * added as real == matched as real
    ensures added == 0 ==> Overlap(matched, added) == 0.0
  {
    if added > 0 {
      var share, whole := matched as real / added as real, added as real;
      assert share * whole == matched as real;
      assert share > threshold ==> share * whole > threshold * whole;
      assert share <= threshold ==> share * whole <= threshold * whole;
    }
  }

  lemma GramsSnoc(text: string, ch: char, n: nat)
    requires n >= 1
    ensures |text| + 1 < n ==> Grams(text + [ch], n) == Grams(text, n)
    ensures |text| + 1 >= n ==> Grams(text + [ch], n) == Grams(text, n) + [Gram(text + [ch], n, |text| + 1 - n)]
  {
    forall i | 0 <= i < GramCount(|text|, n)
      ensures Gram(text + [ch], n, i) == Gram(text, n, i)
    {
      assert (text + [ch])[i..i + n] == text[i..i + n];
    }
  }

  lemma GramsDrop(text: string, n: nat, k: nat)
    requires n >= 1 && k <= GramCount(|text|, n)
    ensures Grams(text[k..], n) == Grams(text, n)[k..]
  {
    forall i | 0 <= i < GramCount(|text| - k, n)
      ensures Gram(text[k..], n, i) == Gram(text, n, k + i)
    {
      assert text[k..][i..i + n] == text[k + i..k + i + n];
    }
  }

  lemma LastRunesSnoc(text: string, ch: char, size: nat)
    requires size >= 1
    ensures LastRunes(text + [ch], size) ==
            var w := LastRunes(text, size) + [ch]; if |w| <= size then w else w[1..]
  {
  }

  lemma MultisetHead(s: seq<string>)
    requires s != []
    ensures multiset(s) == multiset{s[0]} + multiset(s[1..])
  {
    assert s == [s[0]] + s[1..];
  }

  lemma NothingInspected(window: string, n: nat, threshold: real)
    requires n >= 1 && threshold > 0.0
    ensures Verdict(window, "", n, threshold) == SentialResult(false, 0.0, 0, 0)
  {
    assert window + "" == window;
  }

  /** The last n - 1 runes of the window are context enough: the candidate text has
      exactly the new grams. */
  lemma CandidateGrams(window: string, text: string, n: nat, context: string)
    requires n >= 1 && context == LastRunes(window, n - 1)
    ensures Grams(context + text, n) == NewGrams(window, text, n)
  {
    var all := window + text;
    if |window| < n {
      assert context + text == all[|window| - |context|..];
      GramsDrop(all, n, |window| - |context|);
    } else {
      assert context + text == all[|window| - (n - 1)..];
      GramsDrop(all, n, |window| - (n - 1));
    }
  }

  /** The index (counts and their support) counts exactly the given grams. */
  ghost predicate Indexes(counts: map<string, nat>, support: set<string>, grams: multiset<string>) {
    && (forall g :: g in counts <==> g in grams)
    && (forall g :: g in counts ==> counts[g] == grams[g])
    && support == counts.Keys
  }

  class Sential {
    const ngramSize: nat
    const windowSize: nat
    const overlapThreshold: real
    var windowChars: string
    var windowNgramQueue: seq<string>
    var historySet: set<string>
    var historyCounts: map<string, nat>
    ghost var fed: string  // everything inspected since creation or the last Reset

    constructor (opts: SentialOptions)
      ensures Valid() && fed == ""
      ensures ngramSize == if opts.ngramSize <= 0 then 10 else opts.ngramSize
      ensures windowSize == if opts.windowSize <= 0 then 1000 else opts.windowSize
      ensures overlapThreshold == if opts.overlapThreshold <= 0.0 then 0.75 else opts.overlapThreshold
    {
      ngramSize := if opts.ngramSize <= 0 then DEFAULT_NGRAM_SIZE else opts.ngramSize;
      windowSize := if opts.windowSize <= 0 then DEFAULT_WINDOW_SIZE else opts.windowSize;
      overlapThreshold := if opts.overlapThreshold <= 0.0 then DEFAULT_OVERLAP_THRESHOLD else opts.overlapThreshold;
      windowChars, windowNgramQueue := "", [];
      historySet, historyCounts := {}, map[];
      fed := "";
    }

    /** The queue holds the window's n-grams in order, and the index is its multiset. */
    ghost predicate Consistent()
      reads this
    {
      && ngramSize >= 1
      && windowNgramQueue == Grams(windowChars, ngramSize)
      && Indexes(historyCounts, historySet, multiset(windowNgramQueue))
    }

    /** Besides, the window is the last `windowSize` runes of all text fed in. */
    ghost predicate Valid()
      reads this
    {
      && windowSize >= 1
      && overlapThreshold > 0.0
      && windowChars == LastRunes(fed, windowSize)
      && Consistent()
    }

    method AddHistoryGram(gram: string, ghost grams: multiset<string>)
      requires Indexes(historyCounts, historySet, grams)
      modifies this`historySet, this`historyCounts
      ensures Indexes(historyCounts, historySet, grams + multiset{gram})
    {
      var count := if gram in historyCounts then historyCounts[gram] else 0;
      historyCounts := historyCounts[gram := count + 1];
      if historyCounts[gram] == 1 {
        historySet := historySet + {gram};
      }
    }

    method RemoveHistoryGram(gram: string, ghost rest: multiset<string>)
      requires Indexes(historyCounts, historySet, multiset{gram} + rest)
      modifies this`historySet, this`historyCounts
      ensures Indexes(historyCounts, historySet, rest)
    {
      var count := if gram in historyCounts then historyCounts[gram] else 0;
      if count <= 1 {
        historyCounts := historyCounts - {gram};
        historySet := historySet - {gram};
        return;
      }
      historyCounts := historyCounts[gram := count - 1];
    }

    method Enqueue(gram: string)
      requires Indexes(historyCounts, historySet, multiset(windowNgramQueue))
      modifies this`windowNgramQueue, this`historySet, this`historyCounts
      ensures windowNgramQueue == old(windowNgramQueue) + [gram]
      ensures Indexes(historyCounts, historySet, multiset(windowNgramQueue))
    {
      AddHistoryGram(gram, multiset(windowNgramQueue));
      windowNgramQueue := windowNgramQueue + [gram];
    }

    method Dequeue()
      requires Indexes(historyCounts, historySet, multiset(windowNgramQueue)) && |windowNgramQueue| > 0
      modifies this`windowNgramQueue, this`historySet, this`historyCounts
      ensures windowNgramQueue == old(windowNgramQueue)[1..]
      ensures Indexes(historyCounts, historySet, multiset(windowNgramQueue))
    {
      var removed := windowNgramQueue[0];
      MultisetHead(windowNgramQueue);
      windowNgramQueue := windowNgramQueue[1..];
      RemoveHistoryGram(removed, multiset(windowNgramQueue));
    }

    method AppendRune(ch: char)
      requires Consistent()
      modifies this`windowChars, this`windowNgramQueue, this`historySet, this`historyCounts
      ensures Consistent()
      ensures windowChars == old(windowChars) + [ch]
    {
      GramsSnoc(windowChars, ch, ngramSize);
      windowChars := windowChars + [ch];
      if |windowChars| >= ngramSize {
        var start := |windowChars| - ngramSize;
        var gram := windowChars[start..start + ngramSize];
        Enqueue(gram);
        assert windowNgramQueue == Grams(windowChars, ngramSize);
      }
    }

    method DropOldestRune()
      requires Consistent() && |windowChars| > 0
      modifies this`windowChars, this`windowNgramQueue, this`historySet, this`historyCounts
      ensures Consistent()
      ensures windowChars == old(windowChars)[1..]
    {
      if |windowChars| >= ngramSize {
        GramsDrop(windowChars, ngramSize, 1);
      }
      windowChars := windowChars[1..];
      if |windowNgramQueue| > 0 {
        Dequeue();
      }
    }

    method PushWindowChar(ch: char)
      requires Valid()
      modifies this
      ensures Valid()
      ensures fed == old(fed) + [ch]
    {
      LastRunesSnoc(fed, ch, windowSize);
      fed := fed + [ch];
      AppendRune(ch);
      if |windowChars| <= windowSize {
        return;
      }
      DropOldestRune();
    }

    /** The counting loop of an inspection, over the candidate text (context, then chunk). */
    method CountCandidate(candidate: string, contextLength: nat) returns (matchedGrams: nat, newGrams: nat)
      requires Consistent() && contextLength < ngramSize
      ensures newGrams == GramCount(|candidate|, ngramSize)
      ensures matchedGrams == CountMatches(Grams(candidate, ngramSize), Grams(windowChars, ngramSize))
    {
      matchedGrams, newGrams := 0, 0;
      ghost var grams := Grams(candidate, ngramSize);
      if |candidate| >= ngramSize {
        for i := 0 to |candidate| - ngramSize + 1
          invariant newGrams == i
          invariant matchedGrams == CountMatches(grams[..i], windowNgramQueue)
        {
          var gramEndIndex := i + ngramSize - 1;
          if gramEndIndex >= contextLength {
            var gram := candidate[i..i + ngramSize];
            assert gram == grams[i];
            assert grams[..i + 1][..i] == grams[..i];
            newGrams := newGrams + 1;
            if gram in historySet {
              matchedGrams := matchedGrams + 1;
            }
          }
        }
      }
      assert grams[..|grams|] == grams;
    }

    /** The read-only half of an inspection. */
    method Compare(text: string) returns (result: SentialResult)
      requires Consistent()
      ensures result == Verdict(windowChars, text, ngramSize, overlapThreshold)
    {
      var contextSize := ngramSize - 1;
      var contextChars := "";
      if contextSize > 0 && |windowChars| > 0 {
        var start := |windowChars| - contextSize;
        if start < 0 {
          start := 0;
        }
        contextChars := windowChars[start..];
      }
      var candidate := contextChars + text;
      CandidateGrams(windowChars, text, ngramSize, contextChars);
      var matchedGrams, newGrams := CountCandidate(candidate, |contextChars|);
      var overlap := Overlap(matchedGrams, newGrams);
      result := SentialResult(overlap > overlapThreshold, overlap, matchedGrams, newGrams);
    }

    method Feed(text: string)
      requires Valid()
      modifies this
      ensures Valid()
      ensures fed == old(fed) + text
    {
      for i := 0 to |text|
        invariant Valid()
        invariant fed == old(fed) + text[..i]
      {
        PushWindowChar(text[i]);
        assert text[..i + 1] == text[..i] + [text[i]];
      }
      assert text[..|text|] == text;
    }

    method Inspect(text: string) returns (result: SentialResult)
      requires Valid()
      modifies this
      ensures Valid()
      ensures fed == old(fed) + text
      ensures result == Verdict(old(windowChars), text, ngramSize, overlapThreshold)
      ensures Compares(result, old(windowChars), text, ngramSize, overlapThreshold)
    {
      hide Compares, Verdict;
      VerdictCompares(windowChars, text, ngramSize, overlapThreshold);
      if |text| == 0 {
        NothingInspected(windowChars, ngramSize, overlapThreshold);
        assert fed + text == fed;
        return SentialResult(false, 0.0, 0, 0);
      }
      result := Compare(text);
      Feed(text);
    }

    method Reset()
      requires Valid()
      modifies this
      ensures Valid()
      ensures fed == ""
    {
      windowChars, windowNgramQueue := "", [];
      historySet, historyCounts := {}, map[];
      fed := "";
    }
  }
}
