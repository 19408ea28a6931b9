/** Where the built-in chunkers break a text: lines and paragraphs that fit are never broken, and
    no other way to keep them whole takes fewer chunks. */
module ChunkBreaks {
  import opened Text
  import opened Chunking

  // ----- Pieces -----

  lemma {:induction false} FirstPieceIsPrefix(s: string, sep: string)
    requires sep != ""
    ensures SplitBy(s, sep)[0] <= s
  {
    if s != "" && !(sep <= s) {
      FirstPieceIsPrefix(s[1..], sep);
      assert s == [s[0]] + s[1..];
    }
  }

  /** No piece holds the separator; with `JoinSplit` this says that a text is split at each. */
  lemma {:induction false} PiecesLackSeparator(s: string, sep: string, i: nat)
    requires sep != "" && i < |SplitBy(s, sep)|
    ensures !Contains(SplitBy(s, sep)[i], sep)
  {
    var pieces := SplitBy(s, sep);
    if s == "" {
    } else if sep <= s {
      if i > 0 {
        PiecesLackSeparator(s[|sep|..], sep, i - 1);
      }
    } else {
      var rest := SplitBy(s[1..], sep);
      PiecesLackSeparator(s[1..], sep, i);
      if i == 0 {
        FirstPieceIsPrefix(s, sep);
        LacksFirst(s[0], rest[0], sep);
      }
    }
  }

  lemma LacksFirst(c: char, rest: string, sep: string)
    requires !Contains(rest, sep) && !(sep <= [c] + rest)
    ensures !Contains([c] + rest, sep)
  {
    forall k: nat | k <= |[c] + rest| && OccursAt([c] + rest, sep, k)
      ensures false
    {
      if k > 0 {
        assert rest[k - 1..k - 1 + |sep|] == ([c] + rest)[k..k + |sep|];
        assert OccursAt(rest, sep, k - 1);
      }
    }
  }

  // ----- Pieces that fit stay whole -----

  /** The chunk joins the pieces from lo up to hi. */
  predicate Joins(chunk: string, pieces: seq<string>, lo: nat, hi: nat, sep: string) {
    lo < hi <= |pieces| && chunk == Join(pieces[lo..hi], sep)
  }

  /** Piece i is whole in some chunk. */
  ghost predicate WholeIn(chunks: seq<string>, pieces: seq<string>, i: nat, sep: string) {
    exists c, lo: nat, hi: nat :: c in chunks && lo <= i < hi && Joins(c, pieces, lo, hi, sep)
  }

  lemma JoinsLater(chunk: string, pieces: seq<string>, k: nat, lo: nat, hi: nat, sep: string)
    requires k <= |pieces| && Joins(chunk, pieces[k..], lo, hi, sep)
    ensures Joins(chunk, pieces, k + lo, k + hi, sep)
  {
    assert pieces[k..][lo..hi] == pieces[k + lo..k + hi];
  }

  lemma {:induction false} PackKeepsWhole(pieces: seq<string>, sep: string, limit: int, long: string -> seq<string>,
                                          i: nat)
    requires i < |pieces| && |pieces[i]| <= limit
    ensures WholeIn(Pack(pieces, sep, limit, long), pieces, i, sep)
    decreases |pieces|
  {
    hide Join, Pack, FitCount;
    assert pieces[..1] == [pieces[0]] && pieces == [pieces[0]] + pieces[1..];
    SingleJoin(pieces[0], sep);
    var k := 1;
    if |pieces[0]| > limit {
      PackLong(pieces[0], pieces[1..], sep, limit, long);
    } else {
      k := FitCount(pieces, sep, limit, 1);
      PackGroup(pieces, sep, limit, long);
      if i < k {
        var first := Join(pieces[..k], sep);
        assert pieces[0..k] == pieces[..k];
        assert Joins(first, pieces, 0, k, sep) && first in Pack(pieces, sep, limit, long);
      }
    }
    if i >= k {
      assert pieces[k..][i - k] == pieces[i];
      PackKeepsWhole(pieces[k..], sep, limit, long, i - k);
      var rest := Pack(pieces[k..], sep, limit, long);
      var c, lo: nat, hi: nat :| c in rest && lo <= i - k < hi && Joins(c, pieces[k..], lo, hi, sep);
      JoinsLater(c, pieces, k, lo, hi, sep);
      assert c in Pack(pieces, sep, limit, long);
    }
  }

  // ----- No fewer chunks -----

  /** All pieces fit on their own. */
  predicate AllFit(pieces: seq<string>, limit: int) {
    forall i :: 0 <= i < |pieces| ==> |pieces[i]| <= limit
  }

  function Flatten(groups: seq<seq<string>>): seq<string> {
    if groups == [] then [] else groups[0] + Flatten(groups[1..])
  }

  /** The pieces in groups, each of which fits when joined. */
  predicate Groups(groups: seq<seq<string>>, pieces: seq<string>, sep: string, limit: int) {
    && Flatten(groups) == pieces
    && forall g :: 0 <= g < |groups| ==> groups[g] != [] && |Join(groups[g], sep)| <= limit
  }

  /** The greedy group is at least as long as any that fits. */
  lemma GreedyIsLongest(pieces: seq<string>, sep: string, limit: int, n: nat)
    requires 1 <= n <= |pieces| && |Join(pieces[..n], sep)| <= limit
    requires |Join(pieces[..1], sep)| <= limit
    ensures FitCount(pieces, sep, limit, 1) >= n
  {
    hide Join, FitCount;
    var m := FitCount(pieces, sep, limit, 1);
    if m < n {
      assert pieces[..n] == pieces[..m + 1] + pieces[m + 1..n];
      JoinGrows(pieces[..m + 1], pieces[m + 1..n], sep);
    }
  }

  lemma JoinDrops(a: seq<string>, b: seq<string>, sep: string)
    requires b != []
    ensures |Join(b, sep)| <= |Join(a + b, sep)|
  {
    if a == [] {
      assert a + b == b;
    } else {
      JoinAppend(a, b, sep);
    }
  }

  /** Fewer pieces never take more chunks. */
  lemma {:induction false} PackOfSuffix(pieces: seq<string>, k: nat, sep: string, limit: int,
                                        long: string -> seq<string>)
    requires k <= |pieces| && AllFit(pieces, limit)
    ensures |Pack(pieces[k..], sep, limit, long)| <= |Pack(pieces, sep, limit, long)|
    decreases |pieces|
  {
    hide Join, Pack, FitCount;
    PackNothing(sep, limit, long);
    if k == 0 {
      assert pieces[0..] == pieces;
    } else if k < |pieces| {
      var rest := pieces[k..];
      PackFirst(pieces, sep, limit, long);
      PackFirst(rest, sep, limit, long);
      var m, n := FitCount(pieces, sep, limit, 1), FitCount(rest, sep, limit, 1);
      if k <= m {
        if k < m {
          assert rest[..m - k] == pieces[k..m] && pieces[..m] == pieces[..k] + pieces[k..m];
          JoinDrops(pieces[..k], pieces[k..m], sep);
          GreedyIsLongest(rest, sep, limit, m - k);
        }
        assert rest[n..] == pieces[m..][k + n - m..];
        PackOfSuffix(pieces[m..], k + n - m, sep, limit, long);
      } else {
        assert rest == pieces[m..][k - m..];
        PackOfSuffix(pieces[m..], k - m, sep, limit, long);
      }
    }
  }

  lemma PackFirst(pieces: seq<string>, sep: string, limit: int, long: string -> seq<string>)
    requires pieces != [] && AllFit(pieces, limit)
    ensures pieces[..1] == [pieces[0]] && |Join(pieces[..1], sep)| <= limit
    ensures var m := FitCount(pieces, sep, limit, 1);
            |Pack(pieces, sep, limit, long)| == 1 + |Pack(pieces[m..], sep, limit, long)|
  {
    hide Join, Pack, FitCount;
    assert pieces[..1] == [pieces[0]];
    SingleJoin(pieces[0], sep);
    PackGroup(pieces, sep, limit, long);
  }

  /** Greedy packing is optimal: no grouping of pieces that fit has fewer groups. */
  lemma {:induction false} PackIsOptimal(pieces: seq<string>, sep: string, limit: int, long: string -> seq<string>,
                                         groups: seq<seq<string>>)
    requires AllFit(pieces, limit) && Groups(groups, pieces, sep, limit)
    ensures |Pack(pieces, sep, limit, long)| <= |groups|
    decreases |groups|
  {
    hide Join, Pack, FitCount;
    PackNothing(sep, limit, long);
    if pieces != [] {
      var n := |groups[0]|;
      assert pieces[..n] == groups[0] && pieces[n..] == Flatten(groups[1..]);
      PackFirst(pieces, sep, limit, long);
      GreedyIsLongest(pieces, sep, limit, n);
      var m := FitCount(pieces, sep, limit, 1);
      assert pieces[m..] == pieces[n..][m - n..];
      PackOfSuffix(pieces[n..], m - n, sep, limit, long);
      PackIsOptimal(pieces[n..], sep, limit, long, groups[1..]);
    }
  }

  // ----- What chunks are made of -----

  /** Whole pieces, or a part of a piece that does not fit. */
  ghost predicate MadeOf(c: string, pieces: seq<string>, sep: string, limit: int, long: string -> seq<string>) {
    || (exists lo: nat, hi: nat :: Joins(c, pieces, lo, hi, sep))
    || (exists i :: 0 <= i < |pieces| && |pieces[i]| > limit && c in long(pieces[i]))
  }

  lemma MadeOfLater(c: string, pieces: seq<string>, k: nat, sep: string, limit: int, long: string -> seq<string>)
    requires k <= |pieces| && MadeOf(c, pieces[k..], sep, limit, long)
    ensures MadeOf(c, pieces, sep, limit, long)
  {
    hide Joins;
    if lo: nat, hi: nat :| Joins(c, pieces[k..], lo, hi, sep) {
      JoinsLater(c, pieces, k, lo, hi, sep);
    } else {
      var i :| 0 <= i < |pieces[k..]| && |pieces[k..][i]| > limit && c in long(pieces[k..][i]);
      assert pieces[k + i] == pieces[k..][i];
    }
  }

  lemma {:induction false} PackIsMadeOf(pieces: seq<string>, sep: string, limit: int, long: string -> seq<string>,
                                        c: string)
    requires c in Pack(pieces, sep, limit, long)
    ensures MadeOf(c, pieces, sep, limit, long)
    decreases |pieces|
  {
    PackNothing(sep, limit, long);
    hide Join, Pack, FitCount, MadeOf;
    assert pieces != [];
    assert pieces[..1] == [pieces[0]] && pieces == [pieces[0]] + pieces[1..];
    SingleJoin(pieces[0], sep);
    var k := 1;
    if |pieces[0]| > limit {
      PackLong(pieces[0], pieces[1..], sep, limit, long);
      LongPart(c, pieces, 0, sep, limit, long);
    } else {
      k := FitCount(pieces, sep, limit, 1);
      PackGroup(pieces, sep, limit, long);
      WholePart(pieces, k, sep, limit, long);
    }
    if c in Pack(pieces[k..], sep, limit, long) {
      PackIsMadeOf(pieces[k..], sep, limit, long, c);
      MadeOfLater(c, pieces, k, sep, limit, long);
    }
  }

  lemma LongPart(c: string, pieces: seq<string>, i: nat, sep: string, limit: int, long: string -> seq<string>)
    requires i < |pieces| && |pieces[i]| > limit
    ensures c in long(pieces[i]) ==> MadeOf(c, pieces, sep, limit, long)
  {
  }

  lemma WholePart(pieces: seq<string>, k: nat, sep: string, limit: int, long: string -> seq<string>)
    requires 1 <= k <= |pieces|
    ensures MadeOf(Join(pieces[..k], sep), pieces, sep, limit, long)
  {
    assert pieces[0..k] == pieces[..k];
    assert Joins(Join(pieces[..k], sep), pieces, 0, k, sep);
  }

  // ----- Lines and paragraphs -----

  function Lines(text: string): seq<string> {
    SplitBy(TrimSpace(text), "\n")
  }

  function Paragraphs(text: string): seq<string> {
    SplitBy(TrimSpace(text), "\n\n")
  }

  lemma WholeText(text: string, sep: string, chunks: seq<string>, i: nat)
    requires sep != "" && chunks == [TrimSpace(text)] && i < |SplitBy(TrimSpace(text), sep)|
    ensures WholeIn(chunks, SplitBy(TrimSpace(text), sep), i, sep)
  {
    hide TrimSpace, SplitBy, Join;
    var pieces := SplitBy(TrimSpace(text), sep);
    JoinSplit(TrimSpace(text), sep);
    assert pieces[0..|pieces|] == pieces;
    assert Joins(chunks[0], pieces, 0, |pieces|, sep);
  }

  /** ChunkText never breaks a line that fits; and a chunk is made of whole lines, or is part of
      a line that does not fit. */
  lemma LinesStayWhole(text: string, limit: int)
    requires !Blank(text)
    ensures forall i :: 0 <= i < |Lines(text)| && |Lines(text)[i]| <= limit ==>
              WholeIn(TextChunks(text, limit), Lines(text), i, "\n")
    ensures forall c :: c in TextChunks(text, limit) ==>
              MadeOf(c, Lines(text), "\n", limit, line => SplitLongLine(line, limit))
  {
    hide TrimSpace, SplitBy, Pack, SplitLongLine, Join, WholeIn;
    var trimmed, lines, long := TrimSpace(text), Lines(text), (line: string) => SplitLongLine(line, limit);
    if limit <= 0 || |trimmed| <= limit {
      JoinSplit(trimmed, NEWLINE);
      WholePart(lines, |lines|, NEWLINE, limit, long);
      assert lines[..|lines|] == lines;
    }
    forall i | 0 <= i < |lines| && |lines[i]| <= limit
      ensures WholeIn(TextChunks(text, limit), lines, i, NEWLINE)
    {
      if limit <= 0 || |trimmed| <= limit {
        WholeText(text, NEWLINE, TextChunks(text, limit), i);
      } else {
        PackKeepsWhole(lines, NEWLINE, limit, long, i);
      }
    }
    forall c | c in TextChunks(text, limit) && !(limit <= 0 || |trimmed| <= limit)
      ensures MadeOf(c, lines, NEWLINE, limit, long)
    {
      PackIsMadeOf(lines, NEWLINE, limit, long, c);
    }
  }

  /** If all lines fit, no way to keep them whole takes fewer chunks than ChunkText. */
  lemma FewestChunks(text: string, limit: int, groups: seq<seq<string>>)
    requires limit > 0 && AllFit(Lines(text), limit) && Groups(groups, Lines(text), "\n", limit)
    ensures |TextChunks(text, limit)| <= |groups|
  {
    hide TrimSpace, Pack, Join, SplitLongLine;
    PackIsOptimal(Lines(text), NEWLINE, limit, line => SplitLongLine(line, limit), groups);
  }

  /** The same of ChunkMarkdownText and paragraphs; one that does not fit is chunked by lines. */
  lemma ParagraphsStayWhole(text: string, limit: int)
    requires !Blank(text)
    ensures forall i :: 0 <= i < |Paragraphs(text)| && |Paragraphs(text)[i]| <= limit ==>
              WholeIn(MarkdownChunks(text, limit), Paragraphs(text), i, "\n\n")
    ensures forall c :: c in MarkdownChunks(text, limit) ==>
              MadeOf(c, Paragraphs(text), "\n\n", limit, para => TextChunks(para, limit))
  {
    hide TrimSpace, SplitBy, Pack, TextChunks, Join, WholeIn;
    var trimmed, paras, long := TrimSpace(text), Paragraphs(text), (para: string) => TextChunks(para, limit);
    if limit <= 0 || |trimmed| <= limit {
      JoinSplit(trimmed, PARAGRAPH);
      WholePart(paras, |paras|, PARAGRAPH, limit, long);
      assert paras[..|paras|] == paras;
    }
    forall i | 0 <= i < |paras| && |paras[i]| <= limit
      ensures WholeIn(MarkdownChunks(text, limit), paras, i, PARAGRAPH)
    {
      if limit <= 0 || |trimmed| <= limit {
        WholeText(text, PARAGRAPH, MarkdownChunks(text, limit), i);
      } else {
        PackKeepsWhole(paras, PARAGRAPH, limit, long, i);
      }
    }
    forall c | c in MarkdownChunks(text, limit) && !(limit <= 0 || |trimmed| <= limit)
      ensures MadeOf(c, paras, PARAGRAPH, limit, long)
    {
      PackIsMadeOf(paras, PARAGRAPH, limit, long, c);
    }
  }

  lemma FewestMarkdownChunks(text: string, limit: int, groups: seq<seq<string>>)
    requires limit > 0 && AllFit(Paragraphs(text), limit) && Groups(groups, Paragraphs(text), "\n\n", limit)
    ensures |MarkdownChunks(text, limit)| <= |groups|
  {
    hide TrimSpace, Pack, Join, TextChunks;
    PackIsOptimal(Paragraphs(text), PARAGRAPH, limit, para => TextChunks(para, limit), groups);
  }

  // ----- Lines that do not fit -----

  /** Where the k-th segment of a line starts. */
  function Start(k: nat, limit: nat): nat {
    k * limit
  }

  lemma NextStart(k: nat, limit: nat)
    ensures Start(k + 1, limit) == limit + Start(k, limit) && Start(0, limit) == 0
  {
  }

  /** The segment of a line that starts at a place. */
  function SegmentAt(line: string, limit: nat, start: nat): string
    requires start < |line|
  {
    line[start..if start + limit < |line| then start + limit else |line|]
  }

  /** c is the k-th segment of a line, trimmed. */
  predicate IsSegment(c: string, line: string, limit: nat, k: nat) {
    Start(k, limit) < |line| && c == TrimSpace(SegmentAt(line, limit, Start(k, limit))) != ""
  }

  lemma SegmentOfRest(line: string, limit: nat, start: nat)
    requires 0 < limit < |line| && limit + start < |line|
    ensures SegmentAt(line, limit, limit + start) == SegmentAt(line[limit..], limit, start)
  {
    var rest := line[limit..];
    var stop := if start + limit < |rest| then start + limit else |rest|;
    assert SegmentAt(line, limit, limit + start) == line[limit + start..limit + stop];
    assert forall i :: 0 <= i < stop - start ==> line[limit + start..limit + stop][i] == rest[start..stop][i];
  }

  lemma NextSegment(c: string, line: string, limit: nat, k: nat)
    requires 0 < limit < |line|
    ensures IsSegment(c, line, limit, k + 1) <==> IsSegment(c, line[limit..], limit, k)
  {
    hide TrimSpace, Start, SegmentAt;
    NextStart(k, limit);
    if limit + Start(k, limit) < |line| {
      SegmentOfRest(line, limit, Start(k, limit));
    }
  }

  lemma FirstSegment(c: string, line: string, limit: nat)
    requires line != "" && limit > 0
    ensures var end := if limit < |line| then limit else |line|;
            IsSegment(c, line, limit, 0) <==> c == TrimSpace(line[..end]) != ""
  {
    hide TrimSpace, Start;
    NextStart(0, limit);
  }

  /** A line that does not fit is cut every `limit` runes; blank segments are dropped. */
  lemma {:induction false} SegmentsAreCut(line: string, limit: nat, c: string)
    requires limit > 0
    ensures c in SplitLongLine(line, limit) <==> exists k: nat :: IsSegment(c, line, limit, k)
    decreases |line|
  {
    hide TrimSpace, SplitLongLine, IsSegment;
    LongLineEnds(line, limit);
    if line == "" {
      NoSegment(c, limit);
    } else {
      var end := if limit < |line| then limit else |line|;
      LongLineStep(line, limit, end);
      SegmentsAreCut(line[end..], limit, c);
      FirstSegment(c, line, limit);
      LaterSegments(c, line, limit, line[end..]);
    }
  }

  lemma NoSegment(c: string, limit: nat)
    ensures forall k: nat :: !IsSegment(c, "", limit, k)
  {
  }

  lemma LaterSegments(c: string, line: string, limit: nat, rest: string)
    requires line != "" && limit > 0 && rest == line[if limit < |line| then limit else |line|..]
    ensures (exists k: nat :: IsSegment(c, line, limit, k))
            <==> IsSegment(c, line, limit, 0) || exists k: nat :: IsSegment(c, rest, limit, k)
  {
    hide IsSegment;
    if limit < |line| {
      if k: nat :| IsSegment(c, line, limit, k) && k > 0 {
        NextSegment(c, line, limit, k - 1);
      }
      if k: nat :| IsSegment(c, rest, limit, k) {
        NextSegment(c, line, limit, k);
      }
    } else {
      NoSegment(c, limit);
      OneSegment(c, line, limit);
    }
  }

  lemma OneSegment(c: string, line: string, limit: nat)
    requires |line| <= limit
    ensures forall k: nat :: k > 0 ==> !IsSegment(c, line, limit, k)
  {
    hide TrimSpace, Start, SegmentAt;
    forall k: nat | k > 0
      ensures !IsSegment(c, line, limit, k)
    {
      NextStart(k - 1, limit);
    }
  }
}
