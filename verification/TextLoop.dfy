/** Text-loop detection over a stream: the guard counts consecutive hits of the detector,
    and the probe buffer in front of it cuts the stream into chunks of a fixed size. */
module TextLoop {
  import opened Text
  import opened SentialDetector

  const LOOP_DETECTED_STREAK_THRESHOLD := 3
  const LOOP_DETECTED_MIN_NEW_GRAMS_PER_CHUNK := 8
  const LOOP_DETECTED_PROBE_CHARS := 256
  const DEFAULT_CONSECUTIVE_HITS := 10
  const DEFAULT_MIN_NEW_GRAMS_PER_CHUNK := 1

  datatype GuardConfig = GuardConfig(ngramSize: nat, windowSize: nat, overlapThreshold: real,
                                     hitsToAbort: nat, minNewGrams: nat)
  {
    ghost predicate Valid() {
      && ngramSize >= 1
      && windowSize >= 1
      && overlapThreshold > 0.0
      && hitsToAbort >= 1
      && minNewGrams >= 1
    }
  }

  datatype TextLoopGuardResult = TextLoopGuardResult(result: SentialResult, streak: nat, abort: bool)

  // ----- What the guard computes, as a function of the chunks it has seen -----

  /** The detector's verdict on a chunk that follows the text `before`. */
  function ChunkVerdict(before: string, chunk: string, cfg: GuardConfig): SentialResult
    requires cfg.ngramSize >= 1
  {
    Verdict(LastRunes(before, cfg.windowSize), chunk, cfg.ngramSize, cfg.overlapThreshold)
  }

  /** Length of the run of hits at the end, where chunks with too few new grams do not count. */
  function StreakAfter(chunks: seq<string>, cfg: GuardConfig): nat
    requires cfg.ngramSize >= 1
  {
    if chunks == [] then 0
    else
      var earlier := chunks[..|chunks| - 1];
      var r := ChunkVerdict(Concat(earlier), chunks[|chunks| - 1], cfg);
      if r.newGrams < cfg.minNewGrams then StreakAfter(earlier, cfg)
      else if r.hit then StreakAfter(earlier, cfg) + 1
      else 0
  }

  /** Some prefix of the chunks reached the abort streak. */
  ghost predicate Aborts(chunks: seq<string>, cfg: GuardConfig)
    requires cfg.ngramSize >= 1
  {
    exists k :: 0 <= k <= |chunks| && StreakAfter(chunks[..k], cfg) >= cfg.hitsToAbort
  }

  lemma StreakSnoc(chunks: seq<string>, chunk: string, cfg: GuardConfig)
    requires cfg.ngramSize >= 1
    ensures var r := ChunkVerdict(Concat(chunks), chunk, cfg);
            StreakAfter(chunks + [chunk], cfg) ==
            if r.newGrams < cfg.minNewGrams then StreakAfter(chunks, cfg)
            else if r.hit then StreakAfter(chunks, cfg) + 1
            else 0
  {
    assert (chunks + [chunk])[..|chunks|] == chunks;
  }

  lemma AbortsSnoc(chunks: seq<string>, chunk: string, cfg: GuardConfig)
    requires cfg.ngramSize >= 1
    ensures Aborts(chunks + [chunk], cfg) <==>
            Aborts(chunks, cfg) || StreakAfter(chunks + [chunk], cfg) >= cfg.hitsToAbort
  {
    hide StreakAfter;
    var all := chunks + [chunk];
    assert all[..|all|] == all;
    assert forall k :: 0 <= k <= |chunks| ==> all[..k] == chunks[..k];
    if Aborts(chunks, cfg) {
      var k :| 0 <= k <= |chunks| && StreakAfter(chunks[..k], cfg) >= cfg.hitsToAbort;
      assert all[..k] == chunks[..k];
    }
    if StreakAfter(all, cfg) >= cfg.hitsToAbort {
      assert StreakAfter(all[..|all|], cfg) >= cfg.hitsToAbort;
    }
  }

  class TextLoopGuard {
    const sential: Sential
    const consecutiveHitsToAbort: nat
    const minNewGramsPerChunk: nat
    var streak: nat
    ghost var chunks: seq<string>  // every chunk inspected since creation or the last Reset

    constructor (consecutiveHits: int, minNewGrams: int, opts: SentialOptions)
      ensures Valid() && chunks == [] && fresh(sential)
      ensures consecutiveHitsToAbort == if consecutiveHits <= 0 then 10 else consecutiveHits
      ensures minNewGramsPerChunk == if minNewGrams <= 0 then 1 else minNewGrams
      ensures sential.ngramSize == if opts.ngramSize <= 0 then 10 else opts.ngramSize
      ensures sential.windowSize == if opts.windowSize <= 0 then 1000 else opts.windowSize
      ensures sential.overlapThreshold == if opts.overlapThreshold <= 0.0 then 0.75 else opts.overlapThreshold
    {
      sential := new Sential(opts);
      consecutiveHitsToAbort := if consecutiveHits <= 0 then DEFAULT_CONSECUTIVE_HITS else consecutiveHits;
      minNewGramsPerChunk := if minNewGrams <= 0 then DEFAULT_MIN_NEW_GRAMS_PER_CHUNK else minNewGrams;
      streak := 0;
      chunks := [];
    }

    ghost function Config(): GuardConfig {
      GuardConfig(sential.ngramSize, sential.windowSize, sential.overlapThreshold,
                  consecutiveHitsToAbort, minNewGramsPerChunk)
    }

    ghost predicate Valid()
      reads this, sential
    {
      && sential.Valid()
      && Config().Valid()
      && sential.fed == Concat(chunks)
      && streak == StreakAfter(chunks, Config())
    }

    method Inspect(text: string) returns (r: TextLoopGuardResult)
      requires Valid()
      modifies this, sential
      ensures Valid()
      ensures chunks == old(chunks) + [text]
      ensures r.result == ChunkVerdict(Concat(old(chunks)), text, Config())
      ensures r.streak == StreakAfter(chunks, Config())
      ensures r.abort <==> StreakAfter(chunks, Config()) >= consecutiveHitsToAbort
    {
      StreakSnoc(chunks, text, Config());
      ConcatSnoc(chunks, text);
      var result := sential.Inspect(text);
      if result.newGrams >= minNewGramsPerChunk {
        if result.hit {
          streak := streak + 1;
        } else {
          streak := 0;
        }
      }
      chunks := chunks + [text];
      r := TextLoopGuardResult(result, streak, streak >= consecutiveHitsToAbort);
    }

    method Reset()
      requires Valid()
      modifies this, sential
      ensures Valid()
      ensures chunks == []
    {
      sential.Reset();
      streak := 0;
      chunks := [];
    }
  }

  // ----- The probe buffer -----

  /** The full chunks a text is cut into, and what is left over. */
  function FullChunks(text: string, size: nat): (chunks: seq<string>)
    requires size >= 1
    ensures forall i :: 0 <= i < |chunks| ==> |chunks[i]| == size
  {
    if |text| < size then [] else [text[..size]] + FullChunks(text[size..], size)
  }

  function Leftover(text: string, size: nat): (rest: string)
    requires size >= 1
    ensures |rest| < size
  {
    if |text| < size then text else Leftover(text[size..], size)
  }

  /** Cutting loses nothing: the chunks and the leftover are the text. */
  lemma {:induction false} ChunksConserve(text: string, size: nat)
    requires size >= 1
    ensures Concat(FullChunks(text, size)) + Leftover(text, size) == text
  {
    if |text| >= size {
      ChunksConserve(text[size..], size);
      var tail := FullChunks(text[size..], size);
      assert Concat([text[..size]] + tail) == text[..size] + Concat(tail) by {
        assert ([text[..size]] + tail)[1..] == tail;
      }
      assert text == text[..size] + text[size..];
    }
  }

  /** Where the pushes fall does not matter: pushing a and then b on top of what a left
      over cuts the same chunks as pushing a + b at once. */
  lemma {:induction false} PushesCompose(a: string, b: string, size: nat)
    requires size >= 1
    ensures FullChunks(a + b, size) == FullChunks(a, size) + FullChunks(Leftover(a, size) + b, size)
    ensures Leftover(a + b, size) == Leftover(Leftover(a, size) + b, size)
  {
    if |a| >= size {
      assert (a + b)[..size] == a[..size];
      assert (a + b)[size..] == a[size..] + b;
      PushesCompose(a[size..], b, size);
    }
  }

  /** One more piece pushed, in the bookkeeping of a run of pushes. */
  lemma OnePieceMore(before: seq<string>, cut: seq<string>, left: string, text: string,
                     pieces: seq<string>, i: nat, size: nat)
    requires i < |pieces| && size >= 1
    requires text == left + Concat(pieces[..i]) && cut == FullChunks(text, size)
    ensures text + pieces[i] == left + Concat(pieces[..i + 1])
    ensures before + cut + FullChunks(Leftover(text, size) + pieces[i], size)
         == before + FullChunks(text + pieces[i], size)
    ensures Leftover(text + pieces[i], size) == Leftover(Leftover(text, size) + pieces[i], size)
  {
    hide *;
    PushesCompose(text, pieces[i], size);
    ConcatSnoc(pieces[..i], pieces[i]);
    assert pieces[..i + 1] == pieces[..i] + [pieces[i]];
    Assoc(left, Concat(pieces[..i]), pieces[i]);
    Assoc(before, cut, FullChunks(Leftover(text, size) + pieces[i], size));
  }

  lemma CutStep(all: seq<string>, emitted: seq<string>, rest: string, size: nat)
    requires 1 <= size <= |rest|
    requires all == emitted + FullChunks(rest, size)
    ensures all == emitted + [rest[..size]] + FullChunks(rest[size..], size)
    ensures Leftover(rest, size) == Leftover(rest[size..], size)
  {
  }

  lemma PushConserves(before: seq<string>, buffered: string, text: string, size: nat)
    requires size >= 1
    ensures var all := buffered + text;
            Concat(before + FullChunks(all, size)) + Leftover(all, size) == Concat(before) + buffered + text
  {
    var all := buffered + text;
    ConcatAppend(before, FullChunks(all, size));
    ChunksConserve(all, size);
    Reassociate(Concat(before), Concat(FullChunks(all, size)), Leftover(all, size), buffered, text);
  }

  lemma Reassociate(x: string, cut: string, rest: string, buffered: string, text: string)
    requires cut + rest == buffered + text
    ensures x + cut + rest == x + buffered + text
  {
    assert x + cut + rest == x + (cut + rest);
    assert x + buffered + text == x + (buffered + text);
  }

  /** The buffer together with its inspector, the closure that consults the guard and
      raises the abort flag. */
  class TextLoopProbeBuffer {
    const chunkSize: nat
    const guard: TextLoopGuard
    var chars: string
    var offset: nat
    var aborted: bool
    ghost var pushed: string  // everything pushed so far

    constructor (size: int, guard: TextLoopGuard)
      requires guard.Valid() && guard.chunks == []
      ensures Valid() && pushed == ""
      ensures this.guard == guard
      ensures chunkSize == if size <= 0 then LOOP_DETECTED_PROBE_CHARS else size
      ensures guard.chunks == []  && chars == ""
    {
      chunkSize := if size <= 0 then LOOP_DETECTED_PROBE_CHARS else size;
      this.guard := guard;
      chars, offset, aborted, pushed := "", 0, false, "";
    }

    ghost predicate Valid()
      reads this, guard, guard.sential
    {
      && offset == 0
      && |chars| < chunkSize
      && Tracks()
      && Concat(guard.chunks) + chars == pushed
    }

    /** The abort flag is up exactly when the guard has asked for it. */
    ghost predicate Tracks()
      reads this`aborted, guard, guard.sential
    {
      && guard.Valid()
      && (aborted <==> Aborts(guard.chunks, guard.Config()))
    }

    method InspectChunk(text: string)
      requires Tracks()
      modifies this`aborted, guard, guard.sential
      ensures Tracks()
      ensures guard.chunks == old(guard.chunks) + [text]
    {
      AbortsSnoc(guard.chunks, text, guard.Config());
      var result := guard.Inspect(text);
      if result.abort {
        aborted := true;
      }
    }

    method EmitChunk()
      requires Tracks() && 1 <= chunkSize <= |chars| - offset
      modifies this`offset, this`aborted, guard, guard.sential
      ensures Tracks()
      ensures offset == old(offset) + chunkSize
      ensures guard.chunks == old(guard.chunks) + [chars[old(offset)..offset]]
    {
      hide Tracks;
      var chunk := chars[offset..offset + chunkSize];
      offset := offset + chunkSize;
      if |chunk| > 0 {
        InspectChunk(chunk);
      }
    }

    /** The emitting loop of Push. */
    method EmitFullChunks()
      requires Tracks() && offset == 0 && chunkSize >= 1
      modifies this`offset, this`aborted, guard, guard.sential
      ensures Tracks()
      ensures guard.chunks == old(guard.chunks) + FullChunks(chars, chunkSize)
      ensures offset <= |chars| && chars[offset..] == Leftover(chars, chunkSize)
      ensures offset == 0 || offset >= chunkSize
    {
      hide Tracks;
      ghost var emitted, rest := [], chars;
      while |chars| - offset >= chunkSize
        invariant offset <= |chars| && rest == chars[offset..]
        invariant offset == 0 || offset >= chunkSize
        invariant Tracks()
        invariant guard.chunks == old(guard.chunks) + emitted
        invariant FullChunks(chars, chunkSize) == emitted + FullChunks(rest, chunkSize)
        invariant Leftover(chars, chunkSize) == Leftover(rest, chunkSize)
      {
        CutStep(FullChunks(chars, chunkSize), emitted, rest, chunkSize);
        assert rest[..chunkSize] == chars[offset..offset + chunkSize];
        assert guard.chunks + [rest[..chunkSize]] == old(guard.chunks) + (emitted + [rest[..chunkSize]]);
        emitted := emitted + [rest[..chunkSize]];
        rest := rest[chunkSize..];
        EmitChunk();
      }
    }

    method Push(text: string)
      requires Valid()
      modifies this, guard, guard.sential
      ensures Valid()
      ensures pushed == old(pushed) + text
      ensures guard.chunks == old(guard.chunks) + FullChunks(old(chars) + text, chunkSize)
      ensures chars == Leftover(old(chars) + text, chunkSize)
    {
      if text == "" {
        assert chars + text == chars && pushed + text == pushed;
        return;
      }
      hide Tracks;
      PushConserves(guard.chunks, chars, text, chunkSize);
      pushed := pushed + text;
      chars := chars + text;
      EmitFullChunks();
      if offset >= chunkSize {
        chars := chars[offset..];
        offset := 0;
      }
    }

    /** A run of pushes: only the concatenation of the pieces matters. */
    method PushAll(pieces: seq<string>)
      requires Valid()
      modifies this, guard, guard.sential
      ensures Valid()
      ensures guard.chunks == old(guard.chunks) + FullChunks(old(chars) + Concat(pieces), chunkSize)
      ensures chars == Leftover(old(chars) + Concat(pieces), chunkSize)
    {
      ghost var before, left := guard.chunks, chars;
      ghost var text, cut := left, [];
      assert Concat(pieces[..0]) == "" && left + "" == left;
      assert FullChunks(left, chunkSize) == [] && Leftover(left, chunkSize) == left;
      assert before + [] == before && chunkSize >= 1;
      hide *;
      for i := 0 to |pieces|
        invariant Valid()
        invariant text == left + Concat(pieces[..i])
        invariant cut == FullChunks(text, chunkSize)
        invariant guard.chunks == before + cut
        invariant chars == Leftover(text, chunkSize)
      {
        OnePieceMore(before, cut, left, text, pieces, i, chunkSize);
        Push(pieces[i]);
        text := text + pieces[i];
        cut := FullChunks(text, chunkSize);
      }
      assert pieces[..|pieces|] == pieces;
    }

    method Flush()
      requires Valid()
      modifies this, guard, guard.sential
      ensures Valid()
      ensures pushed == old(pushed)
      ensures guard.chunks == old(guard.chunks) + if old(chars) == "" then [] else [old(chars)]
      ensures chars == ""
      ensures Concat(guard.chunks) == pushed
    {
      hide Tracks;
      if |chars| - offset > 0 {
        var remainder := chars[offset..];
        ConcatSnoc(guard.chunks, remainder);
        if |remainder| > 0 {
          InspectChunk(remainder);
        }
      }
      chars := "";
      offset := 0;
      assert Concat(guard.chunks) + "" == Concat(guard.chunks);
    }
  }

  /** The configuration the agent runs with. */
  const DEFAULT_CONFIG := GuardConfig(DEFAULT_NGRAM_SIZE, DEFAULT_WINDOW_SIZE, DEFAULT_OVERLAP_THRESHOLD,
                                      LOOP_DETECTED_STREAK_THRESHOLD, LOOP_DETECTED_MIN_NEW_GRAMS_PER_CHUNK)

  /** What is inspected of a text block that is pushed and then flushed. */
  function BlockChunks(block: string, size: nat): seq<string>
    requires size >= 1
  {
    FullChunks(block, size) + if Leftover(block, size) == "" then [] else [Leftover(block, size)]
  }

  /** What is inspected of several such blocks, each given in pieces. */
  function AllChunks(blocks: seq<seq<string>>, size: nat): seq<string>
    requires size >= 1
  {
    if blocks == [] then []
    else AllChunks(blocks[..|blocks| - 1], size) + BlockChunks(Concat(blocks[|blocks| - 1]), size)
  }

  /** The agent's set-up, fed with a stream of text blocks that arrive in arbitrary pieces. The
      buffer is flushed at the end of every block; the last one may still be open. The outcome
      depends on the texts of the blocks alone, not on how they were cut. */
  method WatchStream(blocks: seq<seq<string>>, tail: seq<string>) returns (aborted: bool)
    ensures aborted <==> Aborts(AllChunks(blocks, LOOP_DETECTED_PROBE_CHARS)
                                + FullChunks(Concat(tail), LOOP_DETECTED_PROBE_CHARS), DEFAULT_CONFIG)
  {
    hide FullChunks, Leftover, Concat, Aborts;
    var guard := new TextLoopGuard(LOOP_DETECTED_STREAK_THRESHOLD, LOOP_DETECTED_MIN_NEW_GRAMS_PER_CHUNK,
                                   SentialOptions(0, 0, 0.0));
    var buffer := new TextLoopProbeBuffer(LOOP_DETECTED_PROBE_CHARS, guard);
    for i := 0 to |blocks|
      invariant buffer.Valid() && buffer.guard == guard && guard.Config() == DEFAULT_CONFIG
      invariant fresh(buffer) && fresh(guard) && fresh(guard.sential)
      invariant buffer.chars == "" && guard.chunks == AllChunks(blocks[..i], LOOP_DETECTED_PROBE_CHARS)
    {
      ghost var before := guard.chunks;
      buffer.PushAll(blocks[i]);
      buffer.Flush();
      assert "" + Concat(blocks[i]) == Concat(blocks[i]);
      assert blocks[..i + 1][..i] == blocks[..i];
      NothingMore(before + FullChunks(Concat(blocks[i]), LOOP_DETECTED_PROBE_CHARS));
      Assoc(before, FullChunks(Concat(blocks[i]), LOOP_DETECTED_PROBE_CHARS),
            [Leftover(Concat(blocks[i]), LOOP_DETECTED_PROBE_CHARS)]);
      NothingMore(FullChunks(Concat(blocks[i]), LOOP_DETECTED_PROBE_CHARS));
    }
    assert blocks[..|blocks|] == blocks;
    buffer.PushAll(tail);
    assert "" + Concat(tail) == Concat(tail);
    aborted := buffer.aborted;
  }

  lemma NothingMore(s: seq<string>)
    ensures s + [] == s
  {
  }
}
