/** What the loop detector promises about a stream as a whole: every stream that turns
    periodic is caught within a bounded number of runes, and a stream whose n-grams are
    locally distinct never is. */
module TextLoopTheorems {
  import opened Text
  import opened SentialDetector
  import opened TextLoop

  /** The rune at k comes back p later. */
  predicate Recurs(text: string, p: nat, k: nat) {
    k + p < |text| ==> text[k] == text[k + p]
  }

  /** From position s on, the text has period p. */
  ghost predicate PeriodicFrom(text: string, s: nat, p: nat) {
    forall k :: s <= k ==> Recurs(text, p, k)
  }

  // ----- Completeness -----

  /** A gram inside the periodic part also occurs one period earlier. */
  lemma GramRecurs(text: string, s: nat, p: nat, n: nat, i: nat)
    requires PeriodicFrom(text, s, p) && s + p <= i && i + n <= |text|
    ensures Gram(text, n, i) == Gram(text, n, i - p)
  {
    var later, earlier := Gram(text, n, i), Gram(text, n, i - p);
    forall d | 0 <= d < n
      ensures later[d] == earlier[d]
    {
      assert Recurs(text, p, i - p + d);
    }
  }

  /** ... and, period by period, among the first `w` runes, once these hold p + n - 1
      runes of the periodic part. */
  lemma {:induction false} GramRecursBefore(text: string, s: nat, p: nat, n: nat, w: nat, i: nat) returns (j: nat)
    requires PeriodicFrom(text, s, p) && p >= 1 && n >= 1
    requires s + p + n - 1 <= w && s <= i && i + n <= |text|
    ensures j + n <= w && j + n <= |text| && Gram(text, n, j) == Gram(text, n, i)
    decreases i
  {
    if i + n <= w {
      j := i;
    } else {
      GramRecurs(text, s, p, n, i);
      j := GramRecursBefore(text, s, p, n, w, i - p);
    }
  }

  /** Every entry of `grams` is in `history`, so every one is counted. */
  lemma {:induction false} AllMatch(grams: seq<string>, history: seq<string>)
    requires forall i :: 0 <= i < |grams| ==> grams[i] in history
    ensures CountMatches(grams, history) == |grams|
  {
    if grams != [] {
      AllMatch(grams[..|grams| - 1], history);
    }
  }

  lemma {:induction false} NoneMatch(grams: seq<string>, history: seq<string>)
    requires forall i :: 0 <= i < |grams| ==> grams[i] !in history
    ensures CountMatches(grams, history) == 0
  {
    if grams != [] {
      NoneMatch(grams[..|grams| - 1], history);
    }
  }

  /** The new grams of a chunk are those that start at or after `GramCount(|window|)`. */
  lemma NewGramAt(window: string, chunk: string, n: nat, k: nat)
    requires n >= 1 && k < |NewGrams(window, chunk, n)|
    ensures GramCount(|window|, n) + k + n <= |window + chunk|
    ensures NewGrams(window, chunk, n)[k] == Gram(window + chunk, n, GramCount(|window|, n) + k)
  {
  }

  /** When the window ends with p + n - 1 runes of period p, and the chunk carries the
      period on, every new gram of the chunk is already in the window. */
  lemma PeriodicChunkMatches(window: string, chunk: string, s: nat, p: nat, n: nat)
    requires n >= 1 && p >= 1
    requires PeriodicFrom(window + chunk, s, p) && s + p + n - 1 <= |window|
    ensures CountMatches(NewGrams(window, chunk, n), Grams(window, n)) == |NewGrams(window, chunk, n)| == |chunk|
  {
    var grams, history := NewGrams(window, chunk, n), Grams(window, n);
    forall k | 0 <= k < |grams|
      ensures grams[k] in history
    {
      NewGramAt(window, chunk, n, k);
      var j := GramRecursBefore(window + chunk, s, p, n, |window|, GramCount(|window|, n) + k);
      assert Gram(window + chunk, n, j) == Gram(window, n, j) by {
        assert (window + chunk)[j..j + n] == window[j..j + n];
      }
      assert history[j] == Gram(window, n, j);
    }
    AllMatch(grams, history);
  }

  /** A suffix that starts at `cut` sees the same period, shifted. */
  lemma PeriodicSuffix(text: string, s: nat, p: nat, cut: nat)
    requires PeriodicFrom(text, s, p) && cut <= s <= |text|
    ensures PeriodicFrom(text[cut..], s - cut, p)
  {
    forall k: nat | s - cut <= k
      ensures Recurs(text[cut..], p, k)
    {
      assert Recurs(text, p, cut + k);
    }
  }

  ghost predicate Detects(cfg: GuardConfig, p: nat, size: nat) {
    && cfg.Valid()
    && cfg.overlapThreshold < 1.0
    && size >= cfg.minNewGrams
    && p >= 1
    && p + cfg.ngramSize - 1 <= cfg.windowSize
  }

  /** A chunk that comes p + n - 1 runes or more into the loop is a counted hit. */
  lemma LoopChunkHits(before: string, chunk: string, s: nat, p: nat, cfg: GuardConfig)
    requires Detects(cfg, p, |chunk|)
    requires PeriodicFrom(before + chunk, s, p) && s + p + cfg.ngramSize - 1 <= |before|
    ensures var r := ChunkVerdict(before, chunk, cfg); r.hit && r.newGrams == |chunk| >= cfg.minNewGrams
  {
    var window := LastRunes(before, cfg.windowSize);
    var cut := |before| - |window|;
    var start := |before| - (p + cfg.ngramSize - 1);
    assert window + chunk == (before + chunk)[cut..];
    assert PeriodicFrom(before + chunk, start, p);
    PeriodicSuffix(before + chunk, start, p, cut);
    PeriodicChunkMatches(window, chunk, start - cut, p, cfg.ngramSize);
    FullOverlap(|chunk|);
    hide NewGrams, Grams, CountMatches, Overlap, PeriodicFrom, LastRunes;
  }

  lemma FullOverlap(count: nat)
    requires count >= 1
    ensures Overlap(count, count) == 1.0
  {
  }

  /** From then on, every further full chunk lengthens the streak by one. */
  lemma {:induction false} StreakGrows(done: seq<string>, text: string, s: nat, p: nat, hits: nat,
                                       cfg: GuardConfig, size: nat)
    requires Detects(cfg, p, size)
    requires PeriodicFrom(Concat(done) + text, s, p) && s + p + cfg.ngramSize - 1 <= |Concat(done)|
    requires hits * size <= |text|
    ensures hits <= |FullChunks(text, size)|
    ensures StreakAfter(done + FullChunks(text, size)[..hits], cfg) >= StreakAfter(done, cfg) + hits
    decreases hits
  {
    hide StreakAfter, ChunkVerdict, Concat, PeriodicFrom, FullChunks;
    if hits == 0 {
      assert done + FullChunks(text, size)[..0] == done;
    } else {
      assert hits * size == (hits - 1) * size + size;
      var chunk, rest := text[..size], text[size..];
      OneMoreChunk(done, chunk, rest, text, s, p);
      LoopChunkHits(Concat(done), chunk, s, p, cfg);
      StreakSnoc(done, chunk, cfg);
      StreakGrows(done + [chunk], rest, s, p, hits - 1, cfg, size);
      FirstChunks(done, text, hits, size);
    }
  }

  /** Moving the next chunk from the text to what is done keeps the period. */
  lemma OneMoreChunk(done: seq<string>, chunk: string, rest: string, text: string, s: nat, p: nat)
    requires text == chunk + rest && PeriodicFrom(Concat(done) + text, s, p)
    ensures Concat(done + [chunk]) == Concat(done) + chunk
    ensures PeriodicFrom(Concat(done + [chunk]) + rest, s, p)
    ensures PeriodicFrom(Concat(done) + chunk, s, p)
  {
    hide Concat, PeriodicFrom;
    ConcatSnoc(done, chunk);
    assert Concat(done) + text == Concat(done) + chunk + rest;
    PeriodicPrefix(Concat(done) + chunk, rest, s, p);
  }

  lemma FirstChunks(done: seq<string>, text: string, hits: nat, size: nat)
    requires 1 <= size <= |text| && 1 <= hits <= |FullChunks(text[size..], size)| + 1
    ensures hits <= |FullChunks(text, size)|
    ensures done + FullChunks(text, size)[..hits]
         == done + [text[..size]] + FullChunks(text[size..], size)[..hits - 1]
  {
    assert FullChunks(text, size) == [text[..size]] + FullChunks(text[size..], size);
  }

  lemma PeriodicPrefix(text: string, more: string, s: nat, p: nat)
    requires PeriodicFrom(text + more, s, p)
    ensures PeriodicFrom(text, s, p)
  {
    forall k: nat | s <= k
      ensures Recurs(text, p, k)
    {
      assert Recurs(text + more, p, k);
    }
  }

  /** Completeness. Whatever was inspected before (`done`), a text whose full chunks are
      then inspected is caught when it has period p from position s on and carries p + n - 1
      runes to fill the window, less than a chunk to reach the next boundary, and one
      chunk for every hit. */
  lemma {:induction false} LoopIsCaught(done: seq<string>, text: string, s: nat, p: nat,
                                        cfg: GuardConfig, size: nat)
    requires Detects(cfg, p, size)
    requires PeriodicFrom(Concat(done) + text, s, p)
    requires |Concat(done)| <= s + p + cfg.ngramSize - 1 + size - 1
    requires |Concat(done)| + |text| >= s + p + cfg.ngramSize - 1 + size - 1 + cfg.hitsToAbort * size
    ensures Aborts(done + FullChunks(text, size), cfg)
    decreases |text|
  {
    hide StreakAfter, ChunkVerdict, Concat, PeriodicFrom;
    if s + p + cfg.ngramSize - 1 <= |Concat(done)| {
      StreakGrows(done, text, s, p, cfg.hitsToAbort, cfg, size);
      var chunks := FullChunks(text, size);
      assert (done + chunks)[..|done| + cfg.hitsToAbort] == done + chunks[..cfg.hitsToAbort];
    } else {
      var chunk, rest := text[..size], text[size..];
      OneMoreChunk(done, chunk, rest, text, s, p);
      LoopIsCaught(done + [chunk], rest, s, p, cfg, size);
      assert done + FullChunks(text, size) == done + [chunk] + FullChunks(rest, size);
    }
  }

  /** Once a prefix of the chunks has led to an abort, further chunks do not undo it. */
  lemma AbortsStays(chunks: seq<string>, more: seq<string>, cfg: GuardConfig)
    requires cfg.ngramSize >= 1 && Aborts(chunks, cfg)
    ensures Aborts(chunks + more, cfg)
  {
    hide StreakAfter;
    var k :| 0 <= k <= |chunks| && StreakAfter(chunks[..k], cfg) >= cfg.hitsToAbort;
    assert (chunks + more)[..k] == chunks[..k];
  }

  /** With the agent's settings: a stream that has period p <= 991 from position s on for p + 1032
      runes is reported, however it goes on, and whatever chunks of it were inspected before. */
  lemma DefaultLoopIsCaught(done: seq<string>, text: string, more: string, s: nat, p: nat)
    requires 1 <= p <= 991
    requires PeriodicFrom(Concat(done) + text, s, p)
    requires |Concat(done)| <= s + p + 264
    requires |Concat(done)| + |text| >= s + p + 1032
    ensures Aborts(done + FullChunks(text + more, LOOP_DETECTED_PROBE_CHARS), DEFAULT_CONFIG)
  {
    hide Aborts, FullChunks, Leftover, Concat, PeriodicFrom;
    var size := LOOP_DETECTED_PROBE_CHARS;
    LoopIsCaught(done, text, s, p, DEFAULT_CONFIG, size);
    PushesCompose(text, more, size);
    var further := FullChunks(Leftover(text, size) + more, size);
    AbortsStays(done + FullChunks(text, size), further, DEFAULT_CONFIG);
    assert done + FullChunks(text + more, size) == done + FullChunks(text, size) + further;
  }

  // ----- Loops in chunks of any size -----

  /** The chunks that are large enough to count. */
  function LargeChunks(chunks: seq<string>, size: nat): nat {
    if chunks == [] then 0
    else LargeChunks(chunks[..|chunks| - 1], size) + if |chunks[|chunks| - 1]| >= size then 1 else 0
  }

  /** A chunk has at most as many new grams as runes. */
  lemma NewGramsAtMost(before: string, chunk: string, cfg: GuardConfig)
    requires cfg.ngramSize >= 1
    ensures ChunkVerdict(before, chunk, cfg).newGrams <= |chunk|
  {
    var window := LastRunes(before, cfg.windowSize);
    assert |window + chunk| == |window| + |chunk|;
    hide LastRunes, CountMatches, Overlap;
  }

  /** Once p + n - 1 runes of the loop have been inspected, every further chunk of enough runes
      lengthens the streak by one, and smaller ones leave it alone, wherever the chunks end: at
      full chunks, or at the ends of flushed text blocks. */
  lemma {:induction false} LoopStreak(done: seq<string>, more: seq<string>, s: nat, p: nat, cfg: GuardConfig)
    requires Detects(cfg, p, cfg.minNewGrams)
    requires PeriodicFrom(Concat(done + more), s, p) && s + p + cfg.ngramSize - 1 <= |Concat(done)|
    ensures StreakAfter(done + more, cfg) == StreakAfter(done, cfg) + LargeChunks(more, cfg.minNewGrams)
  {
    hide StreakAfter, ChunkVerdict, Concat, PeriodicFrom;
    if more == [] {
      assert done + more == done;
    } else {
      var init, last := more[..|more| - 1], more[|more| - 1];
      assert done + more == done + init + [last];
      ConcatSnoc(done + init, last);
      ConcatAppend(done, init);
      PeriodicPrefix(Concat(done + init), last, s, p);
      LoopStreak(done, init, s, p, cfg);
      StreakSnoc(done + init, last, cfg);
      if |last| >= cfg.minNewGrams {
        LoopChunkHits(Concat(done + init), last, s, p, cfg);
      } else {
        NewGramsAtMost(Concat(done + init), last, cfg);
      }
    }
  }

  /** With the agent's settings: whatever was inspected before, a loop with period p <= 991 is
      reported by the third chunk of at least 8 runes after its first p + 9 runes, however long
      or short the chunks are, and however the stream goes on. */
  lemma DefaultLoopInBlocks(done: seq<string>, more: seq<string>, further: seq<string>, s: nat, p: nat)
    requires 1 <= p <= 991
    requires PeriodicFrom(Concat(done + more), s, p) && s + p + 9 <= |Concat(done)|
    requires LargeChunks(more, LOOP_DETECTED_MIN_NEW_GRAMS_PER_CHUNK) >= LOOP_DETECTED_STREAK_THRESHOLD
    ensures Aborts(done + more + further, DEFAULT_CONFIG)
  {
    hide StreakAfter, Concat, PeriodicFrom, LargeChunks;
    LoopStreak(done, more, s, p, DEFAULT_CONFIG);
    assert (done + more)[..|done + more|] == done + more;
    AbortsStays(done + more, further, DEFAULT_CONFIG);
  }

  // ----- No false alarms -----

  /** The grams at i and j differ. */
  predicate Differ(text: string, n: nat, i: nat, j: nat) {
    j + n <= |text| && i + n <= |text| ==> Gram(text, n, i) != Gram(text, n, j)
  }

  /** No n-gram of the text comes back within the given distance. */
  ghost predicate DistinctWithin(text: string, n: nat, distance: nat) {
    forall i: nat, j: nat :: i < j <= i + distance ==> Differ(text, n, i, j)
  }

  lemma DistinctPrefix(text: string, more: string, n: nat, distance: nat)
    requires DistinctWithin(text + more, n, distance)
    ensures DistinctWithin(text, n, distance)
  {
    forall i: nat, j: nat | i < j <= i + distance
      ensures Differ(text, n, i, j)
    {
      if j + n <= |text| {
        assert Differ(text + more, n, i, j);
        assert (text + more)[i..i + n] == text[i..i + n];
        assert (text + more)[j..j + n] == text[j..j + n];
      }
    }
  }

  /** A chunk of text whose grams do not come back within a window and a chunk is no hit. */
  lemma DistinctChunkMisses(before: string, chunk: string, cfg: GuardConfig)
    requires cfg.Valid() && DistinctWithin(before + chunk, cfg.ngramSize, cfg.windowSize + |chunk|)
    ensures !ChunkVerdict(before, chunk, cfg).hit
  {
    var n, all := cfg.ngramSize, before + chunk;
    var window := LastRunes(before, cfg.windowSize);
    var cut := |before| - |window|;
    assert window + chunk == all[cut..];
    var grams, history := NewGrams(window, chunk, n), Grams(window, n);
    forall k | 0 <= k < |grams|
      ensures grams[k] !in history
    {
      NewGramAt(window, chunk, n, k);
      var j := GramCount(|window|, n) + k;
      assert grams[k] == Gram(all, n, cut + j) by {
        assert all[cut..][j..j + n] == all[cut + j..cut + j + n];
      }
      forall i | 0 <= i < |history|
        ensures history[i] != grams[k]
      {
        assert history[i] == Gram(all, n, cut + i) by {
          assert window[i..i + n] == all[cut + i..cut + i + n];
        }
        assert Differ(all, n, cut + i, cut + j);
      }
    }
    NoneMatch(grams, history);
  }

  /** Soundness: a stream whose n-grams never come back within a window and a chunk keeps
      the streak at zero, so it is never aborted. */
  lemma {:induction false} DistinctStreamNeverAborts(chunks: seq<string>, size: nat, cfg: GuardConfig)
    requires cfg.Valid()
    requires forall i :: 0 <= i < |chunks| ==> |chunks[i]| <= size
    requires DistinctWithin(Concat(chunks), cfg.ngramSize, cfg.windowSize + size)
    ensures StreakAfter(chunks, cfg) == 0
    ensures !Aborts(chunks, cfg)
  {
    if chunks != [] {
      var earlier, last := chunks[..|chunks| - 1], chunks[|chunks| - 1];
      assert chunks == earlier + [last];
      ConcatSnoc(earlier, last);
      DistinctPrefix(Concat(earlier), last, cfg.ngramSize, cfg.windowSize + size);
      DistinctStreamNeverAborts(earlier, size, cfg);
      DistinctChunkMisses(Concat(earlier), last, cfg);
      StreakSnoc(earlier, last, cfg);
      AbortsSnoc(earlier, last, cfg);
    }
  }

  // ----- What the streak counts -----

  /** Hit or miss of every chunk that brings enough new grams, in order. */
  function Outcomes(chunks: seq<string>, cfg: GuardConfig): seq<bool>
    requires cfg.ngramSize >= 1
  {
    if chunks == [] then []
    else
      var earlier := chunks[..|chunks| - 1];
      var r := ChunkVerdict(Concat(earlier), chunks[|chunks| - 1], cfg);
      Outcomes(earlier, cfg) + if r.newGrams < cfg.minNewGrams then [] else [r.hit]
  }

  /** The streak is the length of the longest all-hit suffix of the outcomes: chunks with
      too few new grams neither lengthen nor break it. */
  lemma {:induction false} StreakIsTrailingHits(chunks: seq<string>, cfg: GuardConfig)
    requires cfg.ngramSize >= 1
    ensures var outcomes, streak := Outcomes(chunks, cfg), StreakAfter(chunks, cfg);
            && streak <= |outcomes|
            && (forall i :: |outcomes| - streak <= i < |outcomes| ==> outcomes[i])
            && (streak < |outcomes| ==> !outcomes[|outcomes| - streak - 1])
  {
    hide ChunkVerdict, Concat;
    if chunks != [] {
      StreakIsTrailingHits(chunks[..|chunks| - 1], cfg);
    }
  }
}
