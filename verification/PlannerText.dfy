/** Finding the JSON object in what a language model answers. */
module PlannerText {
  import opened Text

  /** strings.IndexByte: the first place of a rune, or -1. */
  function IndexOf(s: string, c: char): (i: int)
    ensures -1 <= i < |s|
    ensures i < 0 ==> c !in s
    ensures i >= 0 ==> s[i] == c && c !in s[..i]
  {
    if s == "" then -1
    else if s[0] == c then 0
    else
      var i := IndexOf(s[1..], c);
      assert i >= 0 ==> s[..i + 1] == [s[0]] + s[1..][..i];
      if i < 0 then -1 else i + 1
  }

  /** strings.LastIndexByte */
  function LastIndexOf(s: string, c: char): (i: int)
    ensures -1 <= i < |s|
    ensures i < 0 ==> c !in s
    ensures i >= 0 ==> s[i] == c && c !in s[i + 1..]
  {
    if s == "" then -1
    else if s[|s| - 1] == c then |s| - 1
    else
      var i := LastIndexOf(s[..|s| - 1], c);
      assert i >= 0 ==> s[i + 1..] == s[..|s| - 1][i + 1..] + [s[|s| - 1]];
      i
  }

  const FENCE := "```"

  function TrimPrefix(s: string, prefix: string): string {
    if prefix <= s then s[|prefix|..] else s
  }

  function TrimSuffix(s: string, suffix: string): string {
    if HasSuffix(s, suffix) then s[..|s| - |suffix|] else s
  }

  /** Without the line that opens a fence. */
  function AfterLine(s: string): string {
    var i := IndexOf(s, '\n');
    if i >= 0 then s[i + 1..] else s
  }

  /** What is inside a fence, or the trimmed text if it does not start with one. */
  function Unfenced(raw: string): string {
    var s := TrimSpace(raw);
    if FENCE <= s then TrimSpace(TrimSuffix(TrimSpace(AfterLine(TrimPrefix(s, FENCE))), FENCE)) else s
  }

  /** extractJSONObject: from the first opening brace to the last closing one, or nothing. */
  function ExtractJSONObject(raw: string): string {
    var s := Unfenced(raw);
    var start, end := IndexOf(s, '{'), LastIndexOf(s, '}');
    if start < 0 || end < 0 || end < start then "" else s[start..end + 1]
  }

  // ----- What it finds -----

  predicate IsObject(json: string) {
    |json| >= 2 && json[0] == '{' && json[|json| - 1] == '}'
  }

  /** The text is prose, an object, and prose; there is no brace of the object's kind outside. */
  predicate Frames(s: string, before: string, json: string, after: string) {
    s == before + json + after && IsObject(json) && '{' !in before && '}' !in after
  }

  lemma {:induction false} FirstIs(s: string, c: char, i: nat)
    requires i < |s| && s[i] == c && c !in s[..i]
    ensures IndexOf(s, c) == i
  {
    if i > 0 {
      assert s[0] == s[..i][0] && s[..i] == [s[0]] + s[1..][..i - 1];
      FirstIs(s[1..], c, i - 1);
    }
  }

  lemma {:induction false} LastIs(s: string, c: char, i: nat)
    requires i < |s| && s[i] == c && c !in s[i + 1..]
    ensures LastIndexOf(s, c) == i
  {
    var last := |s| - 1;
    if i < last {
      assert s[last] == s[i + 1..][last - i - 1] && s[i + 1..] == s[..last][i + 1..] + [s[last]];
      LastIs(s[..last], c, i);
    }
  }

  lemma FoundInFrame(s: string, before: string, json: string, after: string)
    requires Frames(s, before, json, after)
    ensures IndexOf(s, '{') == |before| && LastIndexOf(s, '}') == |before| + |json| - 1
  {
    assert s[..|before|] == before && s[|before| + |json|..] == after;
    FirstIs(s, '{', |before|);
    LastIs(s, '}', |before| + |json| - 1);
  }

  lemma {:induction false} TrimLeftKeeps(x: string, y: string)
    requires y != "" && !IsSpace(y[0])
    ensures TrimLeft(x + y) == TrimLeft(x) + y
  {
    hide IsSpace;
    if x != "" {
      assert (x + y)[1..] == x[1..] + y;
      TrimLeftKeeps(x[1..], y);
    } else {
      assert x + y == y;
    }
  }

  lemma {:induction false} TrimRightKeeps(x: string, y: string)
    requires x != "" && !IsSpace(x[|x| - 1])
    ensures TrimRight(x + y) == x + TrimRight(y)
  {
    hide IsSpace;
    if y != "" {
      assert (x + y)[..|x + y| - 1] == x + y[..|y| - 1];
      TrimRightKeeps(x, y[..|y| - 1]);
    } else {
      assert x + y == x;
    }
  }

  /** Trimming takes from the prose only. */
  lemma TrimFrame(s: string, before: string, json: string, after: string)
    requires Frames(s, before, json, after)
    ensures Frames(TrimSpace(s), TrimLeft(before), json, TrimRight(after))
  {
    hide TrimLeft, TrimRight;
    Assoc(before, json, after);
    TrimLeftKeeps(before, json + after);
    Assoc(TrimLeft(before), json, after);
    TrimRightKeeps(TrimLeft(before) + json, after);
    Part(before, |before| - |TrimLeft(before)|, |before|, '{');
    Part(after, 0, |TrimRight(after)|, '}');
  }

  lemma Part(s: string, lo: nat, hi: nat, c: char)
    requires lo <= hi <= |s| && c !in s
    ensures c !in s[lo..hi]
    ensures hi == |s| ==> s[lo..hi] == s[lo..]
    ensures lo == 0 ==> s[lo..hi] == s[..hi]
  {
  }

  /** So does dropping the opening fence and the rest of its line, if the line ends before the
      object. */
  lemma OpeningFrame(s: string, before: string, json: string, after: string)
    requires Frames(s, before, json, after) && FENCE <= before && '\n' in before[|FENCE|..]
    ensures Frames(AfterLine(TrimPrefix(s, FENCE)), AfterLine(before[|FENCE|..]), json, after)
  {
    hide IndexOf;
    var rest := before[|FENCE|..];
    assert s[|FENCE|..] == rest + (json + after) && FENCE <= s;
    FirstInFront(rest, json + after, '\n');
    var i := IndexOf(rest, '\n');
    assert (rest + (json + after))[i + 1..] == rest[i + 1..] + json + after;
    Part(before, |FENCE| + i + 1, |before|, '{');
    assert before[|FENCE| + i + 1..] == rest[i + 1..];
  }

  lemma {:induction false} FirstInFront(x: string, y: string, c: char)
    requires c in x
    ensures IndexOf(x + y, c) == IndexOf(x, c)
  {
    if x[0] != c {
      assert (x + y)[1..] == x[1..] + y;
      FirstInFront(x[1..], y, c);
    }
  }

  /** And dropping the closing fence. */
  lemma ClosingFrame(s: string, before: string, json: string, after: string)
    requires Frames(s, before, json, after)
    ensures Frames(TrimSuffix(s, FENCE), before, json, TrimSuffix(after, FENCE))
  {
    hide IsObject;
    ObjectEnds(json);
    var n := |after|;
    if n >= |FENCE| {
      assert s[|s| - |FENCE|..] == after[n - |FENCE|..];
      assert s[..|s| - |FENCE|] == before + json + after[..n - |FENCE|];
      Part(after, 0, n - |FENCE|, '}');
    } else {
      var brace := |s| - n - 1;
      assert s[brace] == '}';
      if |s| >= |FENCE| {
        assert s[|s| - |FENCE|..][brace - |s| + |FENCE|] == '}';
      }
    }
  }

  lemma ObjectEnds(json: string)
    requires IsObject(json)
    ensures |json| >= 2 && json[|json| - 1] == '}'
  {
  }

  /** Whether the text starts with a fence depends on the prose before the object. */
  lemma FenceInFront(s: string, before: string, json: string, after: string)
    requires Frames(s, before, json, after)
    ensures FENCE <= s <==> FENCE <= before
  {
    assert |before| < |FENCE| ==> s[|before|] != FENCE[|before|];
    assert |before| >= |FENCE| ==> s[..|FENCE|] == before[..|FENCE|];
  }

  /** The object is extracted from any prose around it that has no brace of its kind, unless a
      fence opens on the json's own line. */
  lemma ObjectIsExtracted(before: string, json: string, after: string)
    requires IsObject(json) && '{' !in before && '}' !in after
    requires FENCE <= TrimLeft(before) ==> '\n' in TrimLeft(before)[|FENCE|..]
    ensures ExtractJSONObject(before + json + after) == json
  {
    hide *;
    var raw := before + json + after;
    MakeFrame(raw, before, json, after);
    TrimFrame(raw, before, json, after);
    var s, b, a := TrimSpace(raw), TrimLeft(before), TrimRight(after);
    FenceInFront(s, b, json, a);
    UnfencedIs(raw);
    if FENCE <= b {
      OpeningFrame(s, b, json, a);
      var inner, b' := AfterLine(TrimPrefix(s, FENCE)), AfterLine(b[|FENCE|..]);
      TrimFrame(inner, b', json, a);
      ClosingFrame(TrimSpace(inner), TrimLeft(b'), json, TrimRight(a));
      TrimFrame(TrimSuffix(TrimSpace(inner), FENCE), TrimLeft(b'), json, TrimSuffix(TrimRight(a), FENCE));
      FrameYields(raw, TrimLeft(TrimLeft(b')), json, TrimRight(TrimSuffix(TrimRight(a), FENCE)));
    } else {
      FrameYields(raw, b, json, a);
    }
  }

  lemma UnfencedIs(raw: string)
    ensures var s := TrimSpace(raw);
            Unfenced(raw) ==
              if FENCE <= s then TrimSpace(TrimSuffix(TrimSpace(AfterLine(TrimPrefix(s, FENCE))), FENCE)) else s
  {
  }

  lemma MakeFrame(raw: string, before: string, json: string, after: string)
    requires raw == before + json + after && IsObject(json) && '{' !in before && '}' !in after
    ensures Frames(raw, before, json, after)
  {
  }

  lemma FrameYields(raw: string, before: string, json: string, after: string)
    requires Frames(Unfenced(raw), before, json, after)
    ensures ExtractJSONObject(raw) == json
  {
    hide Unfenced, IndexOf, LastIndexOf;
    FoundInFrame(Unfenced(raw), before, json, after);
  }

  /** Whatever is extracted starts and ends with braces, or is nothing. */
  lemma ExtractedIsObject(raw: string)
    ensures var json := ExtractJSONObject(raw); json == "" || IsObject(json)
  {
    hide Unfenced;
  }
}
