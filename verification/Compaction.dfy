/** History compaction: which messages of a session a round summarises, and what repeated
    rounds come to. */
module Compaction {
  import opened Text

  newtype byte = b: int | 0 <= b < 256

  /** A row of the history. `usage` is the output token count, if the usage record has one. */
  datatype Row = Row(id: nat, content: seq<byte>, usage: Usage)

  datatype Usage = NoUsage | OutputTokens(tokens: int)

  /** estimateRowTokens: a recorded count if it is positive, else a quarter of the length. */
  function Tokens(row: Row): nat {
    if row.usage.OutputTokens? && row.usage.tokens > 0 then row.usage.tokens else |row.content| / 4
  }

  /** A positive recorded count is taken as it is; else a token is four bytes, rounded down. */
  lemma TokensAre(row: Row)
    ensures match row.usage
            case OutputTokens(tokens) => tokens > 0 ==> Tokens(row) == tokens
            case NoUsage => 4 * Tokens(row) <= |row.content| < 4 * Tokens(row) + 4
    ensures row.usage.OutputTokens? && row.usage.tokens <= 0 ==> Tokens(row) == Tokens(row.(usage := NoUsage))
  {
  }

  function Total(rows: seq<Row>): nat {
    if rows == [] then 0 else Tokens(rows[0]) + Total(rows[1..])
  }

  /** The weight of the rows from k on. */
  function From(rows: seq<Row>, k: nat): nat
    requires k <= |rows|
  {
    Total(rows[k..])
  }

  /** How many of the oldest rows must go for the rest to fit the budget. */
  function Excess(rows: seq<Row>, budget: nat): (k: nat)
    ensures k <= |rows|
  {
    if Total(rows) <= budget then 0 else 1 + Excess(rows[1..], budget)
  }

  lemma {:induction false} TotalConcat(a: seq<Row>, b: seq<Row>)
    ensures Total(a + b) == Total(a) + Total(b)
  {
    if a == [] {
      assert a + b == b;
    } else {
      TotalConcat(a[1..], b);
      assert (a + b)[1..] == a[1..] + b;
    }
  }

  /** A longer suffix weighs no less. */
  lemma SuffixesGrow(rows: seq<Row>, j: nat, k: nat)
    requires j <= k <= |rows|
    ensures From(rows, k) <= From(rows, j) <= Total(rows)
  {
    hide Total;
    assert rows[j..] == rows[j..k] + rows[k..];
    TotalConcat(rows[j..k], rows[k..]);
    assert rows == rows[..j] + rows[j..];
    TotalConcat(rows[..j], rows[j..]);
  }

  lemma FromStep(rows: seq<Row>, k: nat)
    requires k < |rows|
    ensures From(rows, k) == Tokens(rows[k]) + From(rows, k + 1)
  {
    assert rows[k..][1..] == rows[k + 1..];
  }

  /** What stays is the longest suffix within the budget. */
  lemma {:induction false} LongestFittingSuffix(rows: seq<Row>, budget: nat)
    ensures From(rows, Excess(rows, budget)) <= budget
    ensures forall j :: 0 <= j < Excess(rows, budget) ==> From(rows, j) > budget
  {
    assert rows[0..] == rows;
    if Total(rows) > budget {
      var k := Excess(rows[1..], budget);
      LongestFittingSuffix(rows[1..], budget);
      assert rows[1..][k..] == rows[k + 1..];
      forall j | 0 <= j < k + 1
        ensures From(rows, j) > budget
      {
        if j > 0 {
          assert rows[1..][j - 1..] == rows[j..];
          assert From(rows[1..], j - 1) > budget;
        }
      }
    }
  }

  /** The number of rows that must go is determined by where the suffixes start to fit. */
  lemma ExcessIs(rows: seq<Row>, budget: nat, k: nat)
    requires k <= |rows| && From(rows, k) <= budget && (k > 0 ==> From(rows, k - 1) > budget)
    ensures Excess(rows, budget) == k
  {
    hide Excess, From, Total;
    var e := Excess(rows, budget);
    LongestFittingSuffix(rows, budget);
    if e < k {
      SuffixesGrow(rows, e, k - 1);
    }
  }

  // ----- The cuts, as they run -----

  /** The scan shared by the three cuts: from the newest row back to the first one at which the
      weight passes the budget; `otherwise` if it never does. */
  method ScanBack(rows: seq<Row>, budget: nat, otherwise: nat) returns (cutoff: nat)
    ensures cutoff == if Total(rows) > budget then Excess(rows, budget) else otherwise
  {
    hide From, Total, Excess;
    var accumulated := 0;
    cutoff := otherwise;
    var i := |rows|;
    WholeAndNone(rows);
    while i > 0
      invariant 0 <= i <= |rows| && accumulated == From(rows, i) <= budget && cutoff == otherwise
    {
      i := i - 1;
      accumulated := accumulated + Tokens(rows[i]);
      FromStep(rows, i);
      if accumulated > budget {
        ExcessIs(rows, budget, i + 1);
        SuffixesGrow(rows, 0, i);
        return i + 1;
      }
    }
  }

  lemma WholeAndNone(rows: seq<Row>)
    ensures From(rows, 0) == Total(rows) && From(rows, |rows|) == 0
  {
    assert rows[0..] == rows && rows[|rows|..] == [];
  }

  method SplitByTarget(rows: seq<Row>, target: int) returns (oldest: seq<Row>)
    ensures oldest == if target <= 0 then [] else rows[..Excess(rows, target)]
  {
    if target <= 0 || |rows| == 0 {
      return [];
    }
    var cutoff := ScanBack(rows, target, 0);
    if cutoff <= 0 {
      return [];
    }
    return rows[..cutoff];
  }

  method SplitByRatio(rows: seq<Row>, totalInput: int, ratio: int) returns (oldest: seq<Row>)
    ensures oldest == rows[..RatioCut(rows, totalInput, ratio)]
    ensures KeepsShare(rows, |oldest|, totalInput, ratio)
  {
    hide KeepsShare;
    RatioKeepsShare(rows, totalInput, ratio);
    assert rows[..|rows|] == rows;
    if ratio <= 0 || totalInput <= 0 || |rows| == 0 {
      return [];
    }
    if ratio >= 100 {
      return rows;
    }
    var keepTokens := totalInput * (100 - ratio) / 100;
    if keepTokens <= 0 {
      return rows;
    }
    var cutoff := ScanBack(rows, keepTokens, 0);
    if cutoff <= 0 {
      return [];
    }
    return rows[..cutoff];
  }

  /** What is to be kept under a ratio. Both factors are positive where this is used, so the
      division rounds down. */
  function KeepTokens(totalInput: int, ratio: int): int {
    totalInput * (100 - ratio) / 100
  }

  /** How many of the oldest rows a ratio sends to compaction. */
  function RatioCut(rows: seq<Row>, totalInput: int, ratio: int): (k: nat)
    ensures k <= |rows|
  {
    if ratio <= 0 || totalInput <= 0 then 0
    else if ratio >= 100 || KeepTokens(totalInput, ratio) <= 0 then |rows|
    else Excess(rows, KeepTokens(totalInput, ratio))
  }

  /** What the ratio leaves is the longest suffix that weighs at most its share of the input; a
      share of less than one token leaves nothing. */
  ghost predicate KeepsShare(rows: seq<Row>, k: nat, totalInput: int, ratio: int) {
    k <= |rows| &&
    if ratio <= 0 || totalInput <= 0 then k == 0
    else
      var share := totalInput * (100 - ratio);
      if ratio >= 100 || share < 100 then k == |rows|
      else 100 * From(rows, k) <= share && forall j :: 0 <= j < k ==> 100 * From(rows, j) > share
  }

  lemma RatioKeepsShare(rows: seq<Row>, totalInput: int, ratio: int)
    ensures KeepsShare(rows, RatioCut(rows, totalInput, ratio), totalInput, ratio)
  {
    hide From;
    if 0 < ratio < 100 && totalInput > 0 {
      var share := totalInput * (100 - ratio);
      assert share >= 0;
      if share >= 100 {
        LongestFittingSuffix(rows, share / 100);
      }
    }
  }

  /** What trimming keeps: the longest suffix within the budget if the newest row fits, else all. */
  ghost predicate KeepsMost(rows: seq<Row>, k: nat, budget: int) {
    k <= |rows| &&
    if rows == [] || budget <= 0 || Tokens(rows[|rows| - 1]) > budget then k == 0
    else From(rows, k) <= budget && forall j :: 0 <= j < k ==> From(rows, j) > budget
  }

  lemma TrimmingKeepsMost(rows: seq<Row>, budget: int)
    ensures KeepsMost(rows, Skipped(rows, budget), budget)
  {
    hide From, Total, Excess;
    if rows != [] && budget > 0 {
      FromStep(rows, |rows| - 1);
      WholeAndNone(rows);
      LongestFittingSuffix(rows, budget);
      if Excess(rows, budget) < |rows| {
        SuffixesGrow(rows, Excess(rows, budget), |rows| - 1);
      }
    }
  }

  method TrimCompactMessages(rows: seq<Row>, budget: int) returns (kept: seq<Row>)
    ensures kept == rows[Skipped(rows, budget)..]
    ensures |kept| <= |rows| && KeepsMost(rows, |rows| - |kept|, budget)
  {
    hide KeepsMost;
    TrimmingKeepsMost(rows, budget);
    assert rows[0..] == rows;
    if |rows| == 0 || budget <= 0 {
      return rows;
    }
    var total := 0;
    for i := 0 to |rows|
      invariant total == Total(rows[..i])
    {
      total := total + Tokens(rows[i]);
      TotalConcat(rows[..i], [rows[i]]);
      assert rows[..i + 1] == rows[..i] + [rows[i]];
    }
    assert rows[..|rows|] == rows;
    if total <= budget {
      return rows;
    }
    var cutoff := ScanBack(rows, budget, |rows|);
    if cutoff >= |rows| {
      return rows;
    }
    return rows[cutoff..];
  }

  /** How many rows trimming passes over: those before the longest suffix within the budget,
      but none if not even the newest row fits. */
  function Skipped(rows: seq<Row>, budget: int): (k: nat)
    ensures k <= |rows|
    ensures rows != [] ==> k < |rows|
  {
    if budget <= 0 || Excess(rows, budget) == |rows| then 0 else Excess(rows, budget)
  }

  /** Trimming keeps within a budget exactly if the newest row does by itself. */
  lemma TrimmingFits(rows: seq<Row>, budget: nat)
    requires rows != [] && budget > 0
    ensures From(rows, Skipped(rows, budget)) <= budget <==> Tokens(rows[|rows| - 1]) <= budget
  {
    hide From, Total, Excess;
    FromStep(rows, |rows| - 1);
    WholeAndNone(rows);
    LongestFittingSuffix(rows, budget);
    SuffixesGrow(rows, Skipped(rows, budget), |rows| - 1);
  }

  // ----- Rounds -----

  /** What a round is asked to do. */
  datatype Trigger = Trigger(target: int, totalInput: int, ratio: int, maxTokens: int)

  const DEFAULT_MAX_TOKENS := 30000

  function Budget(cfg: Trigger): int {
    if cfg.maxTokens <= 0 then DEFAULT_MAX_TOKENS else cfg.maxTokens
  }

  /** How many of the oldest rows a round is to compact. */
  function Cut(rows: seq<Row>, cfg: Trigger): (k: nat)
    ensures k <= |rows|
  {
    if cfg.target > 0 then Excess(rows, cfg.target) else RatioCut(rows, cfg.totalInput, cfg.ratio)
  }

  /** How many of these it leaves for a later round. */
  function Skip(rows: seq<Row>, cfg: Trigger): (k: nat)
    ensures k <= Cut(rows, cfg)
  {
    Skipped(rows[..Cut(rows, cfg)], Budget(cfg))
  }

  /** The rows that a round summarises, out of those not compacted yet. */
  function Selection(rows: seq<Row>, cfg: Trigger): seq<Row> {
    rows[Skip(rows, cfg)..Cut(rows, cfg)]
  }

  /** A round cuts off what does not fit the target (or, without one, the share that the ratio
      leaves), and of that selects the newest that fit the model's input. */
  ghost predicate RightSelection(selection: seq<Row>, rows: seq<Row>, cfg: Trigger) {
    exists skip: nat, cut: nat ::
      && skip <= cut <= |rows| && selection == rows[skip..cut]
      && (if cfg.target > 0 then
            From(rows, cut) <= cfg.target && forall j :: 0 <= j < cut ==> From(rows, j) > cfg.target
          else KeepsShare(rows, cut, cfg.totalInput, cfg.ratio))
      && KeepsMost(rows[..cut], skip, if cfg.maxTokens > 0 then cfg.maxTokens else 30000)
  }

  lemma SelectionIsRight(rows: seq<Row>, cfg: Trigger)
    ensures RightSelection(Selection(rows, cfg), rows, cfg)
  {
    hide From, KeepsShare, KeepsMost, Skipped, Excess;
    if cfg.target > 0 {
      LongestFittingSuffix(rows, cfg.target);
    } else {
      RatioKeepsShare(rows, cfg.totalInput, cfg.ratio);
    }
    TrimmingKeepsMost(rows[..Cut(rows, cfg)], Budget(cfg));
  }

  /** The rows that it leaves. */
  function Left(rows: seq<Row>, cfg: Trigger): seq<Row> {
    rows[..Skip(rows, cfg)] + rows[Cut(rows, cfg)..]
  }

  /** The rows of a session that are not marked as compacted, in order. */
  function Pending(rows: seq<Row>, marked: set<nat>): seq<Row> {
    if rows == [] then [] else (if rows[0].id in marked then [] else [rows[0]]) + Pending(rows[1..], marked)
  }

  predicate UniqueIds(rows: seq<Row>) {
    forall i, j :: 0 <= i < j < |rows| ==> rows[i].id != rows[j].id
  }

  function Ids(rows: seq<Row>): set<nat> {
    set i | 0 <= i < |rows| :: rows[i].id
  }

  class Session {
    var rows: seq<Row>
    var marked: set<nat>

    constructor (rows: seq<Row>)
      ensures this.rows == rows && marked == {}
    {
      this.rows, marked := rows, {};
    }

    /** doCompaction. The outcomes are those of listing the pending rows, of listing the prior
        summaries, of generating a summary, and of marking the rows: after any error nothing is
        marked. */
    method DoCompaction(cfg: Trigger, listed: bool, prior: bool, generated: bool, stored: bool)
      returns (ok: bool, summarised: seq<Row>)
      modifies this`marked
      ensures var selection := Selection(Pending(rows, old(marked)), cfg);
              && ok == (listed && (selection == [] || (prior && generated && stored)))
              && summarised == if ok then selection else []
      ensures marked == old(marked) + Ids(summarised)
      ensures ok ==> RightSelection(summarised, Pending(rows, old(marked)), cfg)
    {
      hide RightSelection, KeepsShare, KeepsMost;
      SelectionIsRight(Pending(rows, marked), cfg);
      hide Excess, RatioCut, Skipped, Pending;
      assert Ids([]) == {};
      if !listed {
        return false, [];
      }
      var messages := Pending(rows, marked);
      if |messages| == 0 {
        return true, [];
      }
      var toCompact;
      if cfg.target > 0 {
        toCompact := SplitByTarget(messages, cfg.target);
      } else {
        toCompact := SplitByRatio(messages, cfg.totalInput, cfg.ratio);
      }
      if |toCompact| == 0 {
        return true, [];
      }
      var budget := cfg.maxTokens;
      if budget <= 0 {
        budget := DEFAULT_MAX_TOKENS;
      }
      toCompact := TrimCompactMessages(toCompact, budget);
      if !prior || !generated || !stored {
        return false, [];
      }
      MarkAll(toCompact);
      return true, toCompact;
    }

    method MarkAll(chosen: seq<Row>)
      modifies this`marked
      ensures marked == old(marked) + Ids(chosen)
    {
      var ids: set<nat> := {};
      for i := 0 to |chosen|
        invariant marked == old(marked) && ids == set k | 0 <= k < i :: chosen[k].id
      {
        ids := ids + {chosen[i].id};
      }
      marked := marked + ids;
    }
  }

  // ----- What a round does to the rows that are not compacted -----

  lemma {:induction false} PendingTwice(rows: seq<Row>, marked: set<nat>, more: set<nat>)
    ensures Pending(rows, marked + more) == Pending(Pending(rows, marked), more)
  {
    if rows != [] {
      PendingTwice(rows[1..], marked, more);
      var rest := Pending(rows[1..], marked);
      if rows[0].id !in marked {
        assert ([rows[0]] + rest)[1..] == rest;
      } else {
        assert [] + rest == rest;
      }
    }
  }

  lemma {:induction false} PendingNone(rows: seq<Row>, marked: set<nat>)
    requires forall i :: 0 <= i < |rows| ==> rows[i].id in marked
    ensures Pending(rows, marked) == []
  {
    if rows != [] {
      PendingNone(rows[1..], marked);
    }
  }

  lemma {:induction false} PendingAll(rows: seq<Row>, marked: set<nat>)
    requires forall i :: 0 <= i < |rows| ==> rows[i].id !in marked
    ensures Pending(rows, marked) == rows
  {
    if rows != [] {
      PendingAll(rows[1..], marked);
    }
  }

  lemma PendingCons(row: Row, rest: seq<Row>, marked: set<nat>)
    ensures Pending([row] + rest, marked) == (if row.id in marked then [] else [row]) + Pending(rest, marked)
  {
    assert ([row] + rest)[1..] == rest;
  }

  lemma {:induction false} PendingConcat(a: seq<Row>, b: seq<Row>, marked: set<nat>)
    ensures Pending(a + b, marked) == Pending(a, marked) + Pending(b, marked)
  {
    hide Pending;
    if a == [] {
      PendingNone([], marked);
      assert a + b == b && [] + Pending(b, marked) == Pending(b, marked);
    } else {
      PendingConcat(a[1..], b, marked);
      PendingCons(a[0], a[1..] + b, marked);
      PendingCons(a[0], a[1..], marked);
      assert a + b == [a[0]] + (a[1..] + b) && a == [a[0]] + a[1..];
    }
  }

  /** Marking a stretch of rows leaves the others, in order. */
  lemma MarkingAStretch(rows: seq<Row>, from: nat, to: nat)
    requires UniqueIds(rows) && from <= to <= |rows|
    ensures Pending(rows, Ids(rows[from..to])) == rows[..from] + rows[to..]
  {
    hide Pending, UniqueIds;
    var a, b, c := rows[..from], rows[from..to], rows[to..];
    OutsideTheStretch(rows, from, to);
    PendingAll(a, Ids(b));
    PendingNone(b, Ids(b));
    PendingAll(c, Ids(b));
    assert rows == a + (b + c);
    PendingConcat(a, b + c, Ids(b));
    PendingConcat(b, c, Ids(b));
    assert [] + c == c;
  }

  lemma OutsideTheStretch(rows: seq<Row>, from: nat, to: nat)
    requires UniqueIds(rows) && from <= to <= |rows|
    ensures forall i :: 0 <= i < |rows[..from]| ==> rows[..from][i].id !in Ids(rows[from..to])
    ensures forall i :: 0 <= i < |rows[to..]| ==> rows[to..][i].id !in Ids(rows[from..to])
  {
    var stretch := rows[from..to];
    forall k | 0 <= k < |stretch|
      ensures stretch[k] == rows[from + k]
    {
    }
  }

  lemma {:induction false} PendingUnique(rows: seq<Row>, marked: set<nat>)
    requires UniqueIds(rows)
    ensures UniqueIds(Pending(rows, marked))
    ensures Ids(Pending(rows, marked)) <= Ids(rows)
  {
    if rows != [] {
      var tail := rows[1..];
      forall i | 0 <= i < |tail|
        ensures tail[i] == rows[i + 1] && tail[i].id in Ids(rows)
      {
        assert rows[i + 1].id in Ids(rows);
      }
      assert rows[0].id in Ids(rows);
      assert rows[0].id !in Ids(tail);
      PendingUnique(tail, marked);
      ConsUnique(rows[0], Pending(tail, marked));
    }
  }

  lemma ConsUnique(row: Row, rest: seq<Row>)
    requires UniqueIds(rest) && row.id !in Ids(rest)
    ensures UniqueIds([row] + rest) && Ids([row] + rest) == {row.id} + Ids(rest)
  {
    var rows := [row] + rest;
    forall i | 0 <= i < |rest|
      ensures rest[i].id in Ids(rest) && rows[i + 1] == rest[i]
    {
    }
    assert rows[0] == row;
    assert forall i :: 0 < i < |rows| ==> rows[i] == rest[i - 1];
  }

  /** A round with a summary takes its selection, a stretch of the pending rows, and leaves the
      rest pending. */
  lemma RoundLeaves(rows: seq<Row>, marked: set<nat>, cfg: Trigger)
    requires UniqueIds(rows)
    ensures var pending := Pending(rows, marked);
            Pending(rows, marked + Ids(Selection(pending, cfg))) == Left(pending, cfg)
  {
    hide Pending, UniqueIds, Ids, Skip, Cut;
    var pending := Pending(rows, marked);
    PendingUnique(rows, marked);
    PendingTwice(rows, marked, Ids(Selection(pending, cfg)));
    MarkingAStretch(pending, Skip(pending, cfg), Cut(pending, cfg));
  }

  /** A round under a target selects something exactly if the pending rows are over it. */
  lemma RoundMakesProgress(rows: seq<Row>, cfg: Trigger)
    requires cfg.target > 0
    ensures |Left(rows, cfg)| + |Selection(rows, cfg)| == |rows|
    ensures Total(rows) > cfg.target <==> Selection(rows, cfg) != []
  {
    hide Total, Skipped;
    assert Total(rows) > cfg.target <==> Excess(rows, cfg.target) > 0 by {
      ExcessPositive(rows, cfg.target);
    }
  }

  lemma ExcessPositive(rows: seq<Row>, budget: nat)
    ensures Total(rows) > budget <==> Excess(rows, budget) > 0
  {
  }

  /** The pending rows after a number of successful rounds. */
  function After(rows: seq<Row>, cfg: Trigger, rounds: nat): seq<Row> {
    if rounds == 0 then rows else Left(After(rows, cfg, rounds - 1), cfg)
  }

  /** Once the pending rows are within the target a round changes nothing. */
  lemma FixedPoint(rows: seq<Row>, cfg: Trigger)
    requires cfg.target > 0 && Total(rows) <= cfg.target
    ensures Left(rows, cfg) == rows
  {
    hide Total, Skipped;
    ExcessPositive(rows, cfg.target);
    assert rows[..0] + rows[0..] == rows;
  }

  lemma {:induction false} RoundsShrink(rows: seq<Row>, cfg: Trigger, rounds: nat)
    requires cfg.target > 0
    ensures var left := After(rows, cfg, rounds);
            Total(left) <= cfg.target || |left| + rounds <= |rows|
  {
    hide Left, Selection, Total;
    if rounds > 0 {
      var before := After(rows, cfg, rounds - 1);
      RoundsShrink(rows, cfg, rounds - 1);
      RoundMakesProgress(before, cfg);
      if Total(before) <= cfg.target {
        FixedPoint(before, cfg);
      }
    }
  }

  /** The marks after a number of successful rounds. */
  function MarksAfter(rows: seq<Row>, marked: set<nat>, cfg: Trigger, rounds: nat): set<nat> {
    if rounds == 0 then marked
    else
      var earlier := MarksAfter(rows, marked, cfg, rounds - 1);
      earlier + Ids(Selection(Pending(rows, earlier), cfg))
  }

  /** Marking round by round leaves pending what the rounds leave of the pending rows. */
  lemma {:induction false} RoundsLeave(rows: seq<Row>, marked: set<nat>, cfg: Trigger, rounds: nat)
    requires UniqueIds(rows)
    ensures Pending(rows, MarksAfter(rows, marked, cfg, rounds)) == After(Pending(rows, marked), cfg, rounds)
  {
    hide Pending, UniqueIds, Ids, Selection, Left;
    if rounds > 0 {
      RoundsLeave(rows, marked, cfg, rounds - 1);
      RoundLeaves(rows, MarksAfter(rows, marked, cfg, rounds - 1), cfg);
    }
  }

  /** Repeated successful rounds bring the pending rows of a session within the target, after at
      most as many rounds as there are pending rows. */
  lemma RoundsReachTheTarget(rows: seq<Row>, marked: set<nat>, cfg: Trigger, rounds: nat)
    requires UniqueIds(rows) && cfg.target > 0 && rounds >= |Pending(rows, marked)|
    ensures Total(Pending(rows, MarksAfter(rows, marked, cfg, rounds))) <= cfg.target
  {
    hide Pending, Total, UniqueIds, MarksAfter;
    RoundsShrink(Pending(rows, marked), cfg, rounds);
    RoundsLeave(rows, marked, cfg, rounds);
    NothingWeighsNothing(After(Pending(rows, marked), cfg, rounds));
  }

  lemma NothingWeighsNothing(rows: seq<Row>)
    ensures rows == [] ==> Total(rows) == 0
  {
  }

  /** Rows at the end that fit the target outlive a round. */
  lemma SuffixStays(rows: seq<Row>, keep: seq<Row>, cfg: Trigger)
    requires cfg.target > 0 && Total(keep) <= cfg.target && HasSuffix(rows, keep)
    ensures HasSuffix(Left(rows, cfg), keep)
  {
    hide Total, Excess, Skip;
    var e, k := Excess(rows, cfg.target), |rows| - |keep|;
    LongestFittingSuffix(rows, cfg.target);
    assert From(rows, k) <= cfg.target;
    SuffixOfSuffix(rows[..Skip(rows, cfg)], rows[e..], keep);
    assert rows[e..][k - e..] == rows[k..];
  }

  lemma SuffixOfSuffix(front: seq<Row>, back: seq<Row>, keep: seq<Row>)
    requires HasSuffix(back, keep)
    ensures HasSuffix(front + back, keep)
  {
  }

  lemma {:induction false} SuffixOutlivesRounds(rows: seq<Row>, keep: seq<Row>, cfg: Trigger, rounds: nat)
    requires cfg.target > 0 && Total(keep) <= cfg.target && HasSuffix(rows, keep)
    ensures HasSuffix(After(rows, cfg, rounds), keep)
  {
    hide Left, Total, HasSuffix;
    if rounds > 0 {
      SuffixOutlivesRounds(rows, keep, cfg, rounds - 1);
      SuffixStays(After(rows, cfg, rounds - 1), keep, cfg);
    }
  }

  lemma {:induction false} PendingUnmarked(rows: seq<Row>, marked: set<nat>)
    ensures forall i :: 0 <= i < |Pending(rows, marked)| ==> Pending(rows, marked)[i].id !in marked
  {
    if rows != [] {
      PendingUnmarked(rows[1..], marked);
    }
  }

  /** The newest pending rows that fit the target are never marked, however many rounds are run:
      they stay pending, last and in order. */
  lemma NewestAreNeverCompacted(rows: seq<Row>, marked: set<nat>, cfg: Trigger, rounds: nat)
    requires UniqueIds(rows) && cfg.target > 0
    ensures var pending := Pending(rows, marked);
            var keep, marks := pending[Excess(pending, cfg.target)..], MarksAfter(rows, marked, cfg, rounds);
            && HasSuffix(Pending(rows, marks), keep)
            && forall i :: 0 <= i < |keep| ==> keep[i].id !in marks
  {
    hide Pending, Total, Excess, UniqueIds, MarksAfter;
    var pending := Pending(rows, marked);
    var keep := pending[Excess(pending, cfg.target)..];
    LongestFittingSuffix(pending, cfg.target);
    SuffixOutlivesRounds(pending, keep, cfg, rounds);
    RoundsLeave(rows, marked, cfg, rounds);
    var marks := MarksAfter(rows, marked, cfg, rounds);
    var left := Pending(rows, marks);
    PendingUnmarked(rows, marks);
    forall i | 0 <= i < |keep|
      ensures keep[i].id !in marks
    {
      assert left[|left| - |keep|..][i] == left[|left| - |keep| + i];
    }
  }
}
