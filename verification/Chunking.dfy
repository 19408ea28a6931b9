/** The built-in chunkers: splitting a text at line or paragraph boundaries into pieces of
    at most `limit` runes. */
module Chunking {
  import opened Text

  // ----- Text without its white space -----

  /** The runes of a text that are not white space, in order. */
  function Squeeze(s: string): string {
    if s == "" then "" else (if IsSpace(s[0]) then "" else [s[0]]) + Squeeze(s[1..])
  }

  lemma {:induction false} SqueezeAppend(a: string, b: string)
    ensures Squeeze(a + b) == Squeeze(a) + Squeeze(b)
  {
    hide IsSpace;
    if a == "" {
      assert a + b == b;
    } else {
      assert (a + b)[1..] == a[1..] + b;
      SqueezeAppend(a[1..], b);
    }
  }

  lemma {:induction false} SqueezeBlank(s: string)
    requires AllSpace(s)
    ensures Squeeze(s) == ""
  {
    hide IsSpace;
    if s != "" {
      SqueezeBlank(s[1..]);
    }
  }

  lemma SqueezeTrim(s: string)
    ensures Squeeze(TrimSpace(s)) == Squeeze(s)
  {
    hide Squeeze, TrimSpace, AllSpace;
    var before, after := TrimSpaceSplits(s);
    SqueezeAppend(before + TrimSpace(s), after);
    SqueezeAppend(before, TrimSpace(s));
    SqueezeBlank(before);
    SqueezeBlank(after);
  }

  // ----- SplitBy and Join -----

  /** strings.Split: the pieces between the occurrences of the separator, found from left to
      right. */
  function SplitBy(s: string, sep: string): (pieces: seq<string>)
    requires sep != ""
    ensures |pieces| >= 1
  {
    if s == "" then [""]
    else if sep <= s then [""] + SplitBy(s[|sep|..], sep)
    else
      var rest := SplitBy(s[1..], sep);
      [[s[0]] + rest[0]] + rest[1..]
  }

  /** strings.Join */
  function Join(pieces: seq<string>, sep: string): string {
    if pieces == [] then ""
    else if |pieces| == 1 then pieces[0]
    else pieces[0] + sep + Join(pieces[1..], sep)
  }

  lemma {:induction false} JoinSplit(s: string, sep: string)
    requires sep != ""
    ensures Join(SplitBy(s, sep), sep) == s
  {
    JoinEmpty(sep);
    hide Join;
    if s == "" {
    } else if sep <= s {
      JoinSplit(s[|sep|..], sep);
      JoinAfterEmpty(SplitBy(s[|sep|..], sep), sep);
      assert s == sep + s[|sep|..];
    } else {
      JoinSplit(s[1..], sep);
      JoinPrepend(s[0], SplitBy(s[1..], sep), sep);
      assert s == [s[0]] + s[1..];
    }
  }

  lemma JoinEmpty(sep: string)
    ensures Join([""], sep) == ""
  {
  }

  lemma JoinAfterEmpty(pieces: seq<string>, sep: string)
    requires pieces != []
    ensures Join([""] + pieces, sep) == sep + Join(pieces, sep)
  {
    assert ([""] + pieces)[1..] == pieces;
    assert "" + sep == sep;
  }

  lemma JoinPrepend(c: char, pieces: seq<string>, sep: string)
    requires pieces != []
    ensures Join([[c] + pieces[0]] + pieces[1..], sep) == [c] + Join(pieces, sep)
  {
    var more := [[c] + pieces[0]] + pieces[1..];
    assert more[1..] == pieces[1..];
    if |pieces| > 1 {
      assert [c] + pieces[0] + sep + Join(pieces[1..], sep) == [c] + (pieces[0] + sep + Join(pieces[1..], sep));
    }
  }

  lemma {:induction false} JoinAppend(a: seq<string>, b: seq<string>, sep: string)
    requires a != [] && b != []
    ensures Join(a + b, sep) == Join(a, sep) + sep + Join(b, sep)
  {
    assert (a + b)[1..] == a[1..] + b;
    if |a| > 1 {
      JoinAppend(a[1..], b, sep);
      assert a[0] + sep + (Join(a[1..], sep) + sep + Join(b, sep))
          == a[0] + sep + Join(a[1..], sep) + sep + Join(b, sep);
    } else {
      assert a[1..] + b == b;
    }
  }

  // ----- What a list of chunks keeps of a text -----

  /** The chunks appear in the text one after the other, with nothing but white space
      before, between and after them. */
  ghost predicate Covers(text: string, chunks: seq<string>)
    decreases |chunks|
  {
    if chunks == [] then AllSpace(text)
    else exists gap: nat :: NextChunkAt(text, chunks[0], gap) && Covers(text[gap + |chunks[0]|..], chunks[1..])
  }

  predicate NextChunkAt(text: string, chunk: string, gap: nat) {
    gap + |chunk| <= |text| && AllSpace(text[..gap]) && text[gap..gap + |chunk|] == chunk
  }

  /** If the text begins with a visible rune, so does the first chunk, with the same. */
  predicate StartsLike(text: string, chunks: seq<string>) {
    text != "" && !IsSpace(text[0]) ==> chunks != [] && chunks[0] != "" && chunks[0][0] == text[0]
  }

  /** If the text ends with a visible rune, so does the last chunk, with the same. */
  predicate EndsLike(text: string, chunks: seq<string>) {
    text != "" && !IsSpace(text[|text| - 1]) ==>
      && chunks != []
      && var last := chunks[|chunks| - 1]; last != "" && last[|last| - 1] == text[|text| - 1]
  }

  ghost predicate Renders(text: string, chunks: seq<string>) {
    Covers(text, chunks) && StartsLike(text, chunks) && EndsLike(text, chunks)
  }

  lemma FirstGap(text: string, chunks: seq<string>) returns (gap: nat)
    requires Covers(text, chunks) && chunks != []
    ensures NextChunkAt(text, chunks[0], gap) && Covers(text[gap + |chunks[0]|..], chunks[1..])
  {
    hide AllSpace;
    gap :| NextChunkAt(text, chunks[0], gap) && Covers(text[gap + |chunks[0]|..], chunks[1..]);
  }

  lemma CoversFrom(text: string, chunks: seq<string>, gap: nat)
    requires chunks != [] && NextChunkAt(text, chunks[0], gap) && Covers(text[gap + |chunks[0]|..], chunks[1..])
    ensures Covers(text, chunks)
  {
    hide NextChunkAt;
  }

  lemma ShiftSlices(head: string, tail: string, lo: nat, hi: nat)
    requires lo <= hi <= |tail|
    ensures (head + tail)[..|head| + lo] == head + tail[..lo]
    ensures (head + tail)[|head| + lo..|head| + hi] == tail[lo..hi]
    ensures (head + tail)[|head| + hi..] == tail[hi..]
  {
  }

  lemma PrefixSlices(head: string, tail: string, lo: nat, hi: nat)
    requires lo <= hi <= |head|
    ensures (head + tail)[..lo] == head[..lo]
    ensures (head + tail)[lo..hi] == head[lo..hi]
    ensures (head + tail)[hi..] == head[hi..] + tail
  {
  }

  lemma CutTwice(text: string, lo: nat, hi: nat)
    requires lo <= hi <= |text|
    ensures text == text[..lo] + (text[lo..hi] + text[hi..])
  {
  }

  lemma {:induction false} CoversAfterSpace(space: string, text: string, chunks: seq<string>)
    requires AllSpace(space) && Covers(text, chunks)
    ensures Covers(space + text, chunks)
  {
    hide IsSpace;
    if chunks != [] {
      var gap := FirstGap(text, chunks);
      var all, gap' := space + text, |space| + gap;
      ShiftSlices(space, text, gap, gap + |chunks[0]|);
      CoversFrom(all, chunks, gap');
    }
  }

  lemma {:induction false} CoversAppend(a: string, ac: seq<string>, b: string, bc: seq<string>)
    requires Covers(a, ac) && Covers(b, bc)
    ensures Covers(a + b, ac + bc)
    decreases |ac|
  {
    if ac == [] {
      assert AllSpace(a);
    }
    hide IsSpace, AllSpace, Covers;
    if ac == [] {
      assert ac + bc == bc;
      CoversAfterSpace(a, b, bc);
    } else {
      var gap := FirstGap(a, ac);
      var end := gap + |ac[0]|;
      CoversAppend(a[end..], ac[1..], b, bc);
      PrefixSlices(a, b, gap, end);
      assert (ac + bc)[1..] == ac[1..] + bc;
      CoversFrom(a + b, ac + bc, gap);
    }
  }

  lemma CoversItself(text: string)
    ensures Renders(text, [text])
  {
    assert text[..0] == "" && text[0..0 + |text|] == text && text[0 + |text|..] == "";
    assert [text][1..] == [];
    CoversSpace("");
    CoversFrom(text, [text], 0);
  }

  lemma CoversSpace(space: string)
    requires AllSpace(space)
    ensures Covers(space, [])
  {
  }

  /** Rendering two texts, joined by white space. */
  lemma RendersJoin(a: string, ac: seq<string>, sep: string, b: string, bc: seq<string>)
    requires Renders(a, ac) && Renders(b, bc) && sep != "" && AllSpace(sep)
    ensures Renders(a + sep + b, ac + bc)
  {
    hide IsSpace, Covers;
    CoversSpace(sep);
    CoversAppend(a, ac, sep, []);
    assert ac + [] == ac;
    CoversAppend(a + sep, ac, b, bc);
    var text, all := a + sep + b, ac + bc;
    if a == "" {
      assert text[0] == sep[0];
    } else {
      assert text[0] == a[0];
    }
    if b == "" {
      assert text[|text| - 1] == sep[|sep| - 1];
    } else {
      assert text[|text| - 1] == b[|b| - 1];
    }
  }

  /** Rendering two texts side by side, when blank texts have no chunks. */
  lemma RendersAppend(a: string, ac: seq<string>, b: string, bc: seq<string>)
    requires Renders(a, ac) && Renders(b, bc)
    requires (AllSpace(a) ==> ac == []) && (AllSpace(b) ==> bc == [])
    ensures Renders(a + b, ac + bc)
    ensures AllSpace(a + b) ==> ac + bc == []
  {
    hide IsSpace, Covers;
    CoversAppend(a, ac, b, bc);
    var text := a + b;
    if a == "" {
      assert text == b;
    }
    if b == "" {
      assert text == a;
    }
    if AllSpace(text) {
      assert a == text[..|a|] && b == text[|a|..];
    }
  }

  /** White space around a text does not matter. */
  lemma RendersUntrimmed(text: string, chunks: seq<string>)
    requires Renders(TrimSpace(text), chunks)
    ensures Renders(text, chunks)
  {
    hide IsSpace, Covers, TrimSpace;
    var before, after := TrimSpaceSplits(text);
    var trimmed := TrimSpace(text);
    CoversSpace(after);
    CoversAfterSpace(before, trimmed, chunks);
    CoversAppend(before + trimmed, chunks, after, []);
    assert chunks + [] == chunks;
    assert before != "" ==> text[0] == before[0];
    assert after != "" ==> text[|text| - 1] == after[|after| - 1];
    assert before == "" && trimmed == "" ==> text == after;
    assert after == "" && trimmed == "" ==> text == before;
  }

  /** Conservation: the chunks hold exactly the visible runes of the text, in order. */
  lemma {:induction false} CoversConserves(text: string, chunks: seq<string>)
    requires Covers(text, chunks)
    ensures Squeeze(Concat(chunks)) == Squeeze(text)
    decreases |chunks|
  {
    assert Squeeze("") == "";
    if chunks == [] {
      assert AllSpace(text);
    }
    hide IsSpace, AllSpace, Squeeze, Covers;
    if chunks == [] {
      SqueezeBlank(text);
    } else {
      var gap := FirstGap(text, chunks);
      var end := gap + |chunks[0]|;
      CoversConserves(text[end..], chunks[1..]);
      CutTwice(text, gap, end);
      SqueezeAppend(text[..gap], chunks[0] + text[end..]);
      SqueezeAppend(chunks[0], text[end..]);
      SqueezeBlank(text[..gap]);
      SqueezeAppend(chunks[0], Concat(chunks[1..]));
    }
  }

  // ----- The chunkers, as functions -----

  /** splitLongLine: segments of `limit` runes, trimmed, blank ones dropped. */
  function SplitLongLine(line: string, limit: int): seq<string>
    decreases |line|
  {
    if limit <= 0 then [line]
    else if line == "" then []
    else
      var end := if limit < |line| then limit else |line|;
      var segment := TrimSpace(line[..end]);
      (if segment == "" then [] else [segment]) + SplitLongLine(line[end..], limit)
  }

  /** The longest run of pieces from the start that, joined, fits the limit, given that the
      first n do. */
  function FitCount(pieces: seq<string>, sep: string, limit: int, n: nat): (m: nat)
    requires 1 <= n <= |pieces| && |Join(pieces[..n], sep)| <= limit
    ensures n <= m <= |pieces| && |Join(pieces[..m], sep)| <= limit
    ensures m < |pieces| ==> |Join(pieces[..m + 1], sep)| > limit
    decreases |pieces| - n
  {
    if n < |pieces| && |Join(pieces[..n + 1], sep)| <= limit then FitCount(pieces, sep, limit, n + 1) else n
  }

  /** Greedy packing: every chunk joins the longest run of pieces that fits; a piece that
      does not fit alone is handed to `long`. */
  function Pack(pieces: seq<string>, sep: string, limit: int, long: string -> seq<string>): seq<string> {
    if pieces == [] then []
    else if |pieces[0]| > limit then long(pieces[0]) + Pack(pieces[1..], sep, limit, long)
    else
      assert pieces[..1] == [pieces[0]];
      var m := FitCount(pieces, sep, limit, 1);
      [Join(pieces[..m], sep)] + Pack(pieces[m..], sep, limit, long)
  }

  const NEWLINE := "\n"
  const PARAGRAPH := "\n\n"

  /** ChunkText */
  function TextChunks(text: string, limit: int): seq<string> {
    var trimmed := TrimSpace(text);
    if trimmed == "" then []
    else if limit <= 0 || |trimmed| <= limit then [trimmed]
    else Pack(SplitBy(trimmed, NEWLINE), NEWLINE, limit, line => SplitLongLine(line, limit))
  }

  /** ChunkMarkdownText */
  function MarkdownChunks(text: string, limit: int): seq<string> {
    var trimmed := TrimSpace(text);
    if trimmed == "" then []
    else if limit <= 0 || |trimmed| <= limit then [trimmed]
    else Pack(SplitBy(trimmed, PARAGRAPH), PARAGRAPH, limit, para => TextChunks(para, limit))
  }

  predicate Fit(chunks: seq<string>, limit: int) {
    forall i :: 0 <= i < |chunks| ==> |chunks[i]| <= limit
  }

  // ----- What the chunkers promise -----

  lemma {:induction false} LongLineRenders(line: string, limit: int)
    requires limit > 0
    ensures Renders(line, SplitLongLine(line, limit)) && Fit(SplitLongLine(line, limit), limit)
    ensures AllSpace(line) ==> SplitLongLine(line, limit) == []
    decreases |line|
  {
    hide TrimSpace, Renders, AllSpace;
    if line == "" {
      NothingRenders();
    } else {
      var end := if limit < |line| then limit else |line|;
      LongLineRenders(line[end..], limit);
      SegmentRenders(line[..end]);
      var segment := TrimSpace(line[..end]);
      assert line == line[..end] + line[end..];
      RendersAppend(line[..end], if segment == "" then [] else [segment],
                    line[end..], SplitLongLine(line[end..], limit));
    }
  }

  lemma SegmentRenders(raw: string)
    ensures var chunks := if TrimSpace(raw) == "" then [] else [TrimSpace(raw)];
            Renders(raw, chunks) && (AllSpace(raw) ==> chunks == [])
  {
    BlankIffAllSpace(raw);
    if TrimSpace(raw) == "" {
      CoversSpace("");
    } else {
      CoversItself(TrimSpace(raw));
    }
    hide IsSpace, TrimSpace, Covers;
    RendersUntrimmed(raw, if TrimSpace(raw) == "" then [] else [TrimSpace(raw)]);
  }

  /** The long pieces are rendered within the limit. */
  ghost predicate LongRendered(pieces: seq<string>, limit: int, long: string -> seq<string>) {
    forall i :: 0 <= i < |pieces| ==> Renders(pieces[i], long(pieces[i])) && Fit(long(pieces[i]), limit)
  }

  lemma LongRenderedAfter(pieces: seq<string>, limit: int, long: string -> seq<string>, m: nat)
    requires LongRendered(pieces, limit, long) && m <= |pieces|
    ensures LongRendered(pieces[m..], limit, long)
    ensures m > 0 ==> Renders(pieces[0], long(pieces[0])) && Fit(long(pieces[0]), limit)
  {
    hide Renders, Fit;
  }

  lemma FitAppend(a: seq<string>, b: seq<string>, limit: int)
    requires Fit(a, limit) && Fit(b, limit)
    ensures Fit(a + b, limit)
  {
  }

  lemma FitSingle(chunk: string, limit: int)
    requires |chunk| <= limit
    ensures Fit([chunk], limit)
  {
  }

  /** Packing renders the joined pieces when the long ones are rendered. */
  lemma {:induction false} PackRenders(pieces: seq<string>, sep: string, limit: int, long: string -> seq<string>)
    requires sep != "" && AllSpace(sep) && LongRendered(pieces, limit, long)
    ensures Renders(Join(pieces, sep), Pack(pieces, sep, limit, long))
    ensures Fit(Pack(pieces, sep, limit, long), limit)
    decreases |pieces|
  {
    PackNothing(sep, limit, long);
    hide *;
    if pieces == [] {
      NothingRenders();
      return;
    }
    assert pieces[..1] == [pieces[0]] && pieces == [pieces[0]] + pieces[1..];
    SingleJoin(pieces[0], sep);
    if |pieces[0]| > limit {
      PackLong(pieces[0], pieces[1..], sep, limit, long);
      LongRenderedAfter(pieces, limit, long, 1);
      PackRenders(pieces[1..], sep, limit, long);
      FitAppend(long(pieces[0]), Pack(pieces[1..], sep, limit, long), limit);
      GroupRenders(pieces, 1, sep, long(pieces[0]), Pack(pieces[1..], sep, limit, long));
    } else {
      var m := FitCount(pieces, sep, limit, 1);
      var first := Join(pieces[..m], sep);
      PackGroup(pieces, sep, limit, long);
      LongRenderedAfter(pieces, limit, long, m);
      PackRenders(pieces[m..], sep, limit, long);
      CoversItself(first);
      FitSingle(first, limit);
      FitAppend([first], Pack(pieces[m..], sep, limit, long), limit);
      GroupRenders(pieces, m, sep, [first], Pack(pieces[m..], sep, limit, long));
    }
  }

  lemma PackNothing(sep: string, limit: int, long: string -> seq<string>)
    ensures Pack([], sep, limit, long) == [] && Join([], sep) == "" && Fit([], limit)
  {
  }

  lemma NothingRenders()
    ensures Renders("", [])
  {
    CoversSpace("");
  }

  lemma SingleJoin(piece: string, sep: string)
    ensures Join([piece], sep) == piece
  {
  }

  /** The first m pieces as a group, then the rest. */
  lemma GroupRenders(pieces: seq<string>, m: nat, sep: string, first: seq<string>, rest: seq<string>)
    requires 1 <= m <= |pieces| && sep != "" && AllSpace(sep)
    requires Renders(Join(pieces[..m], sep), first)
    requires Renders(Join(pieces[m..], sep), rest)
    requires m == |pieces| ==> rest == []
    ensures Renders(Join(pieces, sep), first + rest)
  {
    hide AllSpace, Renders, Join;
    if m < |pieces| {
      assert pieces == pieces[..m] + pieces[m..];
      JoinAppend(pieces[..m], pieces[m..], sep);
      RendersJoin(Join(pieces[..m], sep), first, sep, Join(pieces[m..], sep), rest);
    } else {
      assert pieces[..m] == pieces && first + rest == first;
    }
  }

  /** ChunkText: the chunks render the trimmed text, and fit the limit when there is one. A
      blank text has none. */
  lemma TextChunksRender(text: string, limit: int)
    ensures Renders(TrimSpace(text), TextChunks(text, limit))
    ensures limit > 0 ==> Fit(TextChunks(text, limit), limit)
    ensures TextChunks(text, limit) == [] <==> Blank(text)
  {
    hide TrimSpace, IsSpace, Renders, Pack, SplitBy, SplitLongLine;
    var trimmed := TrimSpace(text);
    if trimmed == "" {
      NothingRenders();
    } else if limit <= 0 || |trimmed| <= limit {
      CoversItself(trimmed);
    } else {
      var lines := SplitBy(trimmed, NEWLINE);
      forall i | 0 <= i < |lines|
        ensures Renders(lines[i], SplitLongLine(lines[i], limit)) && Fit(SplitLongLine(lines[i], limit), limit)
      {
        LongLineRenders(lines[i], limit);
      }
      JoinSplit(trimmed, NEWLINE);
      NewlinesAreSpace();
      PackRenders(lines, NEWLINE, limit, line => SplitLongLine(line, limit));
      RendersSomething(trimmed, TextChunks(text, limit));
    }
  }

  lemma NewlinesAreSpace()
    ensures AllSpace(NEWLINE) && AllSpace(PARAGRAPH)
  {
  }

  lemma RendersSomething(text: string, chunks: seq<string>)
    requires Renders(text, chunks) && text != "" && !IsSpace(text[0])
    ensures chunks != []
  {
    hide Covers;
  }

  /** ChunkMarkdownText: likewise. */
  lemma MarkdownChunksRender(text: string, limit: int)
    ensures Renders(TrimSpace(text), MarkdownChunks(text, limit))
    ensures limit > 0 ==> Fit(MarkdownChunks(text, limit), limit)
    ensures MarkdownChunks(text, limit) == [] <==> Blank(text)
  {
    hide TrimSpace, IsSpace, Renders, Pack, SplitBy, TextChunks;
    var trimmed := TrimSpace(text);
    if trimmed == "" {
      NothingRenders();
    } else if limit <= 0 || |trimmed| <= limit {
      CoversItself(trimmed);
    } else {
      var paragraphs := SplitBy(trimmed, PARAGRAPH);
      forall i | 0 <= i < |paragraphs|
        ensures Renders(paragraphs[i], TextChunks(paragraphs[i], limit)) && Fit(TextChunks(paragraphs[i], limit), limit)
      {
        TextChunksRender(paragraphs[i], limit);
        RendersUntrimmed(paragraphs[i], TextChunks(paragraphs[i], limit));
      }
      JoinSplit(trimmed, PARAGRAPH);
      NewlinesAreSpace();
      PackRenders(paragraphs, PARAGRAPH, limit, para => TextChunks(para, limit));
      RendersSomething(trimmed, MarkdownChunks(text, limit));
    }
  }

  /** A rendering in the words of a reader: nothing but white space is lost or moved, and the
      first and last chunks begin and end with the first and last visible runes. */
  lemma RenderingMeans(text: string, chunks: seq<string>)
    requires Renders(TrimSpace(text), chunks) && !Blank(text)
    ensures Squeeze(Concat(chunks)) == Squeeze(text)
    ensures var trimmed, first, last := TrimSpace(text), chunks[0], chunks[|chunks| - 1];
            && first != "" && first[0] == trimmed[0]
            && last != "" && last[|last| - 1] == trimmed[|trimmed| - 1]
  {
    hide Covers, Squeeze, IsSpace;
    CoversConserves(TrimSpace(text), chunks);
    SqueezeTrim(text);
  }

  // ----- The chunkers, as loops -----

  method SplitLongLineLoop(line: string, limit: int) returns (chunks: seq<string>)
    ensures chunks == SplitLongLine(line, limit)
  {
    hide TrimSpace, SplitLongLine;
    LongLineEnds(line, limit);
    if limit <= 0 {
      return [line];
    }
    chunks := [];
    var start := 0;
    ghost var rest, all := line, SplitLongLine(line, limit);
    assert [] + all == all;
    while start < |line|
      invariant start <= |line| ==> rest == line[start..]
      invariant start > |line| ==> rest == ""
      invariant all == chunks + SplitLongLine(rest, limit)
      decreases |line| - start
    {
      var end := start + limit;
      if end > |line| {
        end := |line|;
      }
      LongLineStep(rest, limit, end - start);
      assert line[start..end] == rest[..end - start] && line[end..] == rest[end - start..];
      var segment := TrimSpace(line[start..end]);
      start := start + limit;
      rest := line[end..];
      if segment == "" {
        continue;
      }
      Assoc(chunks, [segment], SplitLongLine(rest, limit));
      chunks := chunks + [segment];
    }
    assert chunks + [] == chunks;
  }

  lemma LongLineEnds(line: string, limit: int)
    ensures limit <= 0 ==> SplitLongLine(line, limit) == [line]
    ensures limit > 0 ==> SplitLongLine("", limit) == []
  {
  }

  lemma LongLineStep(line: string, limit: int, end: nat)
    requires limit > 0 && line != "" && end == if limit < |line| then limit else |line|
    ensures var segment := TrimSpace(line[..end]);
            SplitLongLine(line, limit) == if segment == "" then SplitLongLine(line[end..], limit)
                                          else [segment] + SplitLongLine(line[end..], limit)
  {
    hide TrimSpace;
    assert [] + SplitLongLine(line[end..], limit) == SplitLongLine(line[end..], limit);
  }

  /** A piece that would overflow the open group closes it. */
  lemma PackFlush(group: seq<string>, rest: seq<string>, sep: string, limit: int, long: string -> seq<string>)
    requires group != [] && |Join(group, sep)| <= limit
    requires rest != [] ==> |Join(group, sep)| + |sep| + |rest[0]| > limit
    ensures Pack(group + rest, sep, limit, long) == [Join(group, sep)] + Pack(rest, sep, limit, long)
  {
    hide Pack;
    var pieces := group + rest;
    FirstFits(group, sep, limit);
    assert pieces[..1] == [pieces[0]];
    FitsUpTo(group, rest, sep, limit, 1);
    assert pieces[..|group|] == group && pieces[|group|..] == rest;
    PackGroup(pieces, sep, limit, long);
  }

  lemma PackGroup(pieces: seq<string>, sep: string, limit: int, long: string -> seq<string>)
    requires pieces != [] && pieces[..1] == [pieces[0]] && |pieces[0]| <= limit
    ensures var m := FitCount(pieces, sep, limit, 1);
            Pack(pieces, sep, limit, long) == [Join(pieces[..m], sep)] + Pack(pieces[m..], sep, limit, long)
  {
    hide FitCount;
  }

  lemma FirstFits(group: seq<string>, sep: string, limit: int)
    requires group != [] && |Join(group, sep)| <= limit
    ensures |group[0]| <= limit
  {
  }

  /** Joining more pieces is longer. */
  lemma JoinGrows(a: seq<string>, b: seq<string>, sep: string)
    requires a != []
    ensures |Join(a, sep)| <= |Join(a + b, sep)|
  {
    if b == [] {
      assert a + b == a;
    } else {
      JoinAppend(a, b, sep);
    }
  }

  lemma {:induction false} FitsUpTo(group: seq<string>, rest: seq<string>, sep: string, limit: int, n: nat)
    requires 1 <= n <= |group| && |Join(group, sep)| <= limit
    requires |Join((group + rest)[..n], sep)| <= limit
    requires rest != [] ==> |Join(group, sep)| + |sep| + |rest[0]| > limit
    ensures FitCount(group + rest, sep, limit, n) == |group|
    decreases |group| - n
  {
    hide Join;
    var pieces := group + rest;
    if n < |group| {
      assert pieces[..n + 1] == group[..n + 1] && group == group[..n + 1] + group[n + 1..];
      JoinGrows(group[..n + 1], group[n + 1..], sep);
      FitsUpTo(group, rest, sep, limit, n + 1);
    } else if rest != [] {
      assert pieces[..n + 1] == group + [rest[0]];
      JoinAppend(group, [rest[0]], sep);
      SingleJoin(rest[0], sep);
    }
  }

  /** The packing loop shared by both chunkers: the buffer, its length, and what is left. */
  ghost predicate Packing(pieces: seq<string>, i: nat, chunks: seq<string>, buf: seq<string>, bufLen: int,
                          sep: string, limit: int, long: string -> seq<string>)
  {
    && i <= |pieces|
    && bufLen == |Join(buf, sep)| <= limit
    && Pack(pieces, sep, limit, long) == chunks + Pack(buf + pieces[i..], sep, limit, long)
  }

  lemma PackingStarts(pieces: seq<string>, sep: string, limit: int, long: string -> seq<string>)
    requires limit > 0
    ensures Packing(pieces, 0, [], [], 0, sep, limit, long)
  {
    hide Pack;
    assert [] + pieces[0..] == pieces;
    assert [] + Pack(pieces, sep, limit, long) == Pack(pieces, sep, limit, long);
  }

  /** One iteration: the piece joins the buffer, starts a new one, or is split. */
  lemma PackingStep(pieces: seq<string>, i: nat, chunks: seq<string>, buf: seq<string>, bufLen: int,
                    sep: string, limit: int, long: string -> seq<string>)
    requires Packing(pieces, i, chunks, buf, bufLen, sep, limit, long) && i < |pieces|
    ensures var piece := pieces[i];
            var fits := bufLen + (if buf == [] then 0 else |sep|) + |piece| <= limit;
            var flushed := if buf == [] then chunks else chunks + [Join(buf, sep)];
            && (fits ==> Packing(pieces, i + 1, chunks, buf + [piece],
                                 bufLen + (if buf == [] then 0 else |sep|) + |piece|, sep, limit, long))
            && (!fits && |piece| <= limit ==>
                 Packing(pieces, i + 1, flushed, [piece], |piece|, sep, limit, long))
            && (!fits && |piece| > limit ==>
                 Packing(pieces, i + 1, flushed + long(piece), [], 0, sep, limit, long))
  {
    PackNothing(sep, limit, long);
    hide Pack, Join;
    if buf == [] {
      StepFromEmpty(pieces, i, chunks, sep, limit, long);
    } else {
      StepFromOpen(pieces, i, chunks, buf, bufLen, sep, limit, long);
    }
  }

  lemma StepFromEmpty(pieces: seq<string>, i: nat, chunks: seq<string>, sep: string, limit: int,
                      long: string -> seq<string>)
    requires i < |pieces| && Packing(pieces, i, chunks, [], 0, sep, limit, long)
    ensures var piece := pieces[i];
            && (|piece| <= limit ==> Packing(pieces, i + 1, chunks, [] + [piece], |piece|, sep, limit, long)
                                     && Packing(pieces, i + 1, chunks, [piece], |piece|, sep, limit, long))
            && (|piece| > limit ==> Packing(pieces, i + 1, chunks + long(piece), [], 0, sep, limit, long))
  {
    var piece, rest := pieces[i], pieces[i + 1..];
    SingleJoin(piece, sep);
    if |piece| > limit {
      PackLong(piece, rest, sep, limit, long);
    }
    hide Pack, Join;
    assert [] + pieces[i..] == [piece] + rest;
    assert [] + [piece] == [piece] && [] + rest == rest;
    Assoc(chunks, long(piece), Pack(rest, sep, limit, long));
  }

  lemma StepFromOpen(pieces: seq<string>, i: nat, chunks: seq<string>, buf: seq<string>, bufLen: int,
                     sep: string, limit: int, long: string -> seq<string>)
    requires i < |pieces| && buf != [] && Packing(pieces, i, chunks, buf, bufLen, sep, limit, long)
    ensures var piece, more := pieces[i], bufLen + |sep| + |pieces[i]|;
            && (more <= limit ==> Packing(pieces, i + 1, chunks, buf + [piece], more, sep, limit, long))
            && (more > limit && |piece| <= limit ==>
                 Packing(pieces, i + 1, chunks + [Join(buf, sep)], [piece], |piece|, sep, limit, long))
            && (more > limit && |piece| > limit ==>
                 Packing(pieces, i + 1, chunks + [Join(buf, sep)] + long(piece), [], 0, sep, limit, long))
  {
    var piece, rest := pieces[i], pieces[i + 1..];
    assert pieces[i..] == [piece] + rest;
    SingleJoin(piece, sep);
    JoinAppend(buf, [piece], sep);
    Assoc(buf, [piece], rest);
    if bufLen + |sep| + |piece| > limit {
      Flushed(pieces, i, chunks, buf, bufLen, sep, limit, long);
      StepFromEmpty(pieces, i, chunks + [Join(buf, sep)], sep, limit, long);
    }
    hide Pack, Join;
  }

  lemma Flushed(pieces: seq<string>, i: nat, chunks: seq<string>, buf: seq<string>, bufLen: int,
                sep: string, limit: int, long: string -> seq<string>)
    requires i < |pieces| && buf != [] && Packing(pieces, i, chunks, buf, bufLen, sep, limit, long)
    requires bufLen + |sep| + |pieces[i]| > limit
    ensures Packing(pieces, i, chunks + [Join(buf, sep)], [], 0, sep, limit, long)
  {
    PackNothing(sep, limit, long);
    hide Pack, Join;
    PackFlush(buf, pieces[i..], sep, limit, long);
    assert [] + pieces[i..] == pieces[i..];
    Assoc(chunks, [Join(buf, sep)], Pack(pieces[i..], sep, limit, long));
  }

  lemma PackLong(piece: string, rest: seq<string>, sep: string, limit: int, long: string -> seq<string>)
    requires |piece| > limit
    ensures Pack([piece] + rest, sep, limit, long) == long(piece) + Pack(rest, sep, limit, long)
  {
    assert ([piece] + rest)[1..] == rest;
  }

  lemma PackingEnds(pieces: seq<string>, chunks: seq<string>, buf: seq<string>, bufLen: int,
                    sep: string, limit: int, long: string -> seq<string>)
    requires Packing(pieces, |pieces|, chunks, buf, bufLen, sep, limit, long)
    ensures Pack(pieces, sep, limit, long) == if buf == [] then chunks else chunks + [Join(buf, sep)]
  {
    assert Pack([], sep, limit, long) == [];
    hide Pack, Join;
    assert buf + pieces[|pieces|..] == buf + [];
    if buf == [] {
      assert chunks + [] == chunks;
    } else {
      PackFlush(buf, [], sep, limit, long);
      assert [Join(buf, sep)] + [] == [Join(buf, sep)];
    }
  }

  method ChunkText(text: string, limit: int) returns (chunks: seq<string>)
    ensures chunks == TextChunks(text, limit)
  {
    hide TrimSpace, SplitBy, Pack, Join, SplitLongLine;
    var trimmed := TrimSpace(text);
    if trimmed == "" {
      return [];
    }
    if limit <= 0 || |trimmed| <= limit {
      return [trimmed];
    }
    var lines := SplitBy(trimmed, NEWLINE);
    ghost var long := (line: string) => SplitLongLine(line, limit);
    chunks := [];
    var buf, bufLen: int := [], 0;
    PackingStarts(lines, NEWLINE, limit, long);
    for i := 0 to |lines|
      invariant Packing(lines, i, chunks, buf, bufLen, NEWLINE, limit, long)
    {
      hide Packing;
      var line := lines[i];
      var lineLen := |line|;
      var sepLen := 0;
      if |buf| > 0 {
        sepLen := 1;
      }
      PackingStep(lines, i, chunks, buf, bufLen, NEWLINE, limit, long);
      if bufLen + sepLen + lineLen <= limit {
        buf := buf + [line];
        bufLen := bufLen + sepLen + lineLen;
        continue;
      }
      if |buf| > 0 {
        chunks := chunks + [Join(buf, NEWLINE)];
        buf, bufLen := [], 0;
      }
      if lineLen <= limit {
        assert [] + [line] == [line];
        buf := buf + [line];
        bufLen := lineLen;
        continue;
      }
      var segments := SplitLongLineLoop(line, limit);
      chunks := chunks + segments;
    }
    PackingEnds(lines, chunks, buf, bufLen, NEWLINE, limit, long);
    if |buf| > 0 {
      chunks := chunks + [Join(buf, NEWLINE)];
    }
  }

  method ChunkMarkdownText(text: string, limit: int) returns (chunks: seq<string>)
    ensures chunks == MarkdownChunks(text, limit)
  {
    hide TrimSpace, SplitBy, Pack, Join, TextChunks;
    var trimmed := TrimSpace(text);
    if trimmed == "" {
      return [];
    }
    if limit <= 0 || |trimmed| <= limit {
      return [trimmed];
    }
    var paragraphs := SplitBy(trimmed, PARAGRAPH);
    ghost var long := (para: string) => TextChunks(para, limit);
    chunks := [];
    var buf, bufLen: int := [], 0;
    PackingStarts(paragraphs, PARAGRAPH, limit, long);
    for i := 0 to |paragraphs|
      invariant Packing(paragraphs, i, chunks, buf, bufLen, PARAGRAPH, limit, long)
    {
      hide Packing;
      var para := paragraphs[i];
      var paraLen := |para|;
      var sepLen := 0;
      if |buf| > 0 {
        sepLen := 2;
      }
      PackingStep(paragraphs, i, chunks, buf, bufLen, PARAGRAPH, limit, long);
      if bufLen + sepLen + paraLen <= limit {
        buf := buf + [para];
        bufLen := bufLen + sepLen + paraLen;
        continue;
      }
      if |buf| > 0 {
        chunks := chunks + [Join(buf, PARAGRAPH)];
        buf, bufLen := [], 0;
      }
      if paraLen <= limit {
        assert [] + [para] == [para];
        buf := buf + [para];
        bufLen := paraLen;
        continue;
      }
      var segments := ChunkText(para, limit);
      chunks := chunks + segments;
    }
    PackingEnds(paragraphs, chunks, buf, bufLen, PARAGRAPH, limit, long);
    if |buf| > 0 {
      chunks := chunks + [Join(buf, PARAGRAPH)];
    }
  }
}
