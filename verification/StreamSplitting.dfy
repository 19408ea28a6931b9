/** How a streamed text is spread over adapter streams: what one more delta does to them, whichever
    adapter call fails, and which promises about them are kept. */
module StreamSplitting {
  import opened Text
  import opened OutboundMessages

  /** An event pushed by the caller. Every event kind not named here is passed on unread. */
  datatype StreamEvent = Delta(text: string, reasoning: bool) | Final(message: Message) | Started | Other(tag: nat)

  /** What an adapter stream has been told. */
  datatype AdapterEvent = Pushed(event: StreamEvent) | Closed

  type AdapterLog = seq<AdapterEvent>

  /** Answer text counts against the limit; reasoning and empty deltas do not. */
  predicate IsCounted(e: StreamEvent) {
    e.Delta? && e.text != "" && !e.reasoning
  }

  /** The counted deltas of one adapter stream, in order. */
  function Counted(log: AdapterLog): seq<string> {
    if log == [] then []
    else
      var e := log[|log| - 1];
      Counted(log[..|log| - 1]) + if e.Pushed? && IsCounted(e.event) then [e.event.text] else []
  }

  /** The counted deltas of all adapter streams, one stream after the other. */
  function CountedAll(streams: seq<AdapterLog>): seq<string> {
    if streams == [] then [] else CountedAll(streams[..|streams| - 1]) + Counted(streams[|streams| - 1])
  }

  /** At most `limit` runes, or a single delta that is longer. */
  predicate Within(pieces: seq<string>, limit: int) {
    |Concat(pieces)| <= limit || |pieces| == 1
  }

  predicate WithinLimit(log: AdapterLog, limit: int) {
    Within(Counted(log), limit)
  }

  /** Ends with an empty final and the only close. */
  predicate Finished(log: AdapterLog) {
    && |log| >= 2
    && log[|log| - 1] == Closed
    && log[|log| - 2] == Pushed(Final(EMPTY_MESSAGE))
    && Closed !in log[..|log| - 1]
  }

  /** Opened with the event that makes the adapter start a new message. */
  predicate Reopened(log: AdapterLog) {
    log != [] && log[0] == Pushed(Started)
  }

  /** One more event on the current stream. */
  function Append(streams: seq<AdapterLog>, e: StreamEvent): seq<AdapterLog>
    requires streams != []
  {
    var last := |streams| - 1;
    streams[..last] + [streams[last] + [Pushed(e)]]
  }

  /** The current stream is finished and a new one is opened. */
  function Split(streams: seq<AdapterLog>): seq<AdapterLog>
    requires streams != []
  {
    var last := |streams| - 1;
    streams[..last] + [streams[last] + [Pushed(Final(EMPTY_MESSAGE)), Closed]] + [[Pushed(Started)]]
  }

  /** The adapter call made for a delta that fails, if any does: pushing the final, closing,
      reopening or pushing the status of a split, or pushing the delta itself. A fault in a split
      that is not made does not occur. */
  datatype Fault = NoFault | AtFinal | AtClose | AtReopen | AtStatus | AtPush

  /** What a split has done when it stops at a fault. */
  function SplitUpTo(streams: seq<AdapterLog>, fault: Fault): seq<AdapterLog>
    requires streams != []
  {
    var last := |streams| - 1;
    match fault
    case AtFinal => streams
    case AtClose => Append(streams, Final(EMPTY_MESSAGE))
    case AtReopen => streams[..last] + [streams[last] + [Pushed(Final(EMPTY_MESSAGE)), Closed]]
    case AtStatus => streams[..last] + [streams[last] + [Pushed(Final(EMPTY_MESSAGE)), Closed]] + [[]]
    case _ => Split(streams)
  }

  const SENTENCE_TERMINATORS := {
    '.', '\U{3002}', '!', '\U{FF01}', '?', '\U{FF1F}', '\U{2026}', '\U{22EF}', ';', '\U{FF1B}' }

  /** isNaturalBreakPoint: after a line break, or after the end of a sentence. */
  predicate IsNaturalBreakPoint(text: string) {
    || (text != "" && text[|text| - 1] == '\n')
    || var trimmed := TrimRight(text); trimmed != "" && trimmed[|trimmed| - 1] in SENTENCE_TERMINATORS
  }

  const STREAM_SPLIT_SOFT_RATIO := 4

  function SoftLimit(limit: int): int
    requires limit > 0
  {
    limit - limit / STREAM_SPLIT_SOFT_RATIO
  }

  // ----- One more delta -----

  // Throughout, `limit` is the limit of a stream, or 0 if the text is not to be split, and
  // `before` is the text counted for the current stream.

  predicate Overflows(limit: nat, before: string, d: string) {
    limit > 0 && |before| + |d| > limit
  }

  /** Whether this delta makes the stream split: always when it would overflow the limit;
      between the soft and the hard limit, when it ends at a natural break. */
  predicate MakesSplit(limit: nat, before: string, d: string) {
    && limit > 0
    && (Overflows(limit, before, d)
        || (|before| + |d| > SoftLimit(limit) && IsNaturalBreakPoint(before + d)))
  }

  /** The split comes before a delta that would overflow the stream, else after it. */
  function WithDelta(limit: nat, logs: seq<AdapterLog>, before: string, d: string, fault: Fault): seq<AdapterLog>
    requires logs != []
  {
    var event := Delta(d, false);
    if Overflows(limit, before, d) then
      if fault == NoFault then Append(Split(logs), event) else SplitUpTo(logs, fault)
    else if fault == AtPush then logs
    else if MakesSplit(limit, before, d) then SplitUpTo(Append(logs, event), fault)
    else Append(logs, event)
  }

  /** The text counted afterwards. A failed push still counts, and a failed split at a natural
      break has already started over. */
  function NextText(limit: nat, before: string, d: string, fault: Fault): string {
    if limit == 0 then ""
    else if Overflows(limit, before, d) then if fault in {NoFault, AtPush} then d else before
    else if MakesSplit(limit, before, d) && fault != AtPush then ""
    else before + d
  }

  /** Whether the delta gets through. */
  predicate Arrives(limit: nat, before: string, d: string, fault: Fault) {
    if Overflows(limit, before, d) then fault == NoFault else fault != AtPush
  }

  /** Whether the fault occurs. */
  predicate Occurs(limit: nat, before: string, d: string, fault: Fault) {
    fault == AtPush || (MakesSplit(limit, before, d) && fault != NoFault)
  }

  /** Whether a new stream is opened, and whether it is also told to start. */
  predicate Opens(limit: nat, before: string, d: string, fault: Fault) {
    MakesSplit(limit, before, d) && (fault in {NoFault, AtStatus} || (Overflows(limit, before, d) && fault == AtPush))
  }

  predicate Starts(limit: nat, before: string, d: string, fault: Fault) {
    Opens(limit, before, d, fault) && fault != AtStatus
  }

  /** A split at a natural break stops before the new stream is open, with the counters already
      started over. */
  predicate Slips(limit: nat, before: string, d: string, fault: Fault) {
    MakesSplit(limit, before, d) && !Overflows(limit, before, d) && fault in {AtFinal, AtClose, AtReopen}
  }

  /** A split stops with its stream closed, or with a new one that is not told to start. */
  predicate Misshapes(limit: nat, before: string, d: string, fault: Fault) {
    MakesSplit(limit, before, d) && fault in {AtReopen, AtStatus}
  }

  lemma FaultsOccur(limit: nat, before: string, d: string, fault: Fault)
    ensures Slips(limit, before, d, fault) || Misshapes(limit, before, d, fault) ==> Occurs(limit, before, d, fault)
    ensures !Occurs(limit, before, d, fault) ==> Arrives(limit, before, d, fault)
    ensures Opens(limit, before, d, fault) ==>
              limit > 0 && (Starts(limit, before, d, fault) || Misshapes(limit, before, d, fault))
    ensures Starts(limit, before, d, fault) ==> Opens(limit, before, d, fault)
  {
    hide IsNaturalBreakPoint, SoftLimit;
  }

  // ----- What events and splits do to the counted deltas -----

  lemma CountedSnoc(log: AdapterLog, e: AdapterEvent)
    ensures Counted(log + [e]) == Counted(log) + if e.Pushed? && IsCounted(e.event) then [e.event.text] else []
  {
    assert (log + [e])[..|log|] == log;
  }

  lemma CountedAllSnoc(streams: seq<AdapterLog>, log: AdapterLog)
    ensures CountedAll(streams + [log]) == CountedAll(streams) + Counted(log)
  {
    assert (streams + [log])[..|streams|] == streams;
  }

  lemma NothingCounted()
    ensures Counted([]) == [] && Concat([]) == ""
  {
  }

  /** The counted deltas of a pushed event. */
  function CountedOf(e: StreamEvent): seq<string> {
    if IsCounted(e) then [e.text] else []
  }

  lemma AppendCounts(streams: seq<AdapterLog>, e: StreamEvent)
    requires streams != []
    ensures var after, last := Append(streams, e), |streams| - 1;
            && |after| == |streams| && (forall i :: 0 <= i < last ==> after[i] == streams[i])
            && after[last] == streams[last] + [Pushed(e)]
            && Counted(after[last]) == Counted(streams[last]) + CountedOf(e)
            && CountedAll(after) == CountedAll(streams) + CountedOf(e)
  {
    hide Counted, CountedAll;
    var init, log := streams[..|streams| - 1], streams[|streams| - 1];
    assert streams == init + [log];
    CountedSnoc(log, Pushed(e));
    CountedAllSnoc(init, log);
    CountedAllSnoc(init, log + [Pushed(e)]);
    Assoc(CountedAll(init), Counted(log), CountedOf(e));
  }

  lemma FinishedCounts(log: AdapterLog)
    ensures Counted(log + [Pushed(Final(EMPTY_MESSAGE))]) == Counted(log)
    ensures Counted(log + [Pushed(Final(EMPTY_MESSAGE)), Closed]) == Counted(log)
    ensures Counted([Pushed(Started)]) == [] == Counted([])
  {
    hide Counted;
    var final := Pushed(Final(EMPTY_MESSAGE));
    NothingCounted();
    assert log + [final, Closed] == log + [final] + [Closed];
    CountedSnoc(log, final);
    CountedSnoc(log + [final], Closed);
    assert [] + [Pushed(Started)] == [Pushed(Started)];
    CountedSnoc([], Pushed(Started));
    assert Counted(log) + [] == Counted(log);
  }

  /** A split stops before the new stream is open. */
  predicate StopsShort(fault: Fault) {
    fault in {AtFinal, AtClose, AtReopen}
  }

  /** Splitting moves no text, wherever it stops. */
  lemma SplitCounts(streams: seq<AdapterLog>, fault: Fault)
    requires streams != []
    ensures var after, last := SplitUpTo(streams, fault), |streams| - 1;
            && |after| == |streams| + (if StopsShort(fault) then 0 else 1)
            && (forall i :: 0 <= i < last ==> after[i] == streams[i])
            && Counted(after[last]) == Counted(streams[last])
            && (!StopsShort(fault) ==> Counted(after[last + 1]) == [])
            && CountedAll(after) == CountedAll(streams)
  {
    hide Counted, CountedAll;
    var init, log := streams[..|streams| - 1], streams[|streams| - 1];
    var final := Pushed(Final(EMPTY_MESSAGE));
    assert streams == init + [log];
    FinishedCounts(log);
    CountedAllSnoc(init, log);
    CountedAllSnoc(init, log + [final]);
    CountedAllSnoc(init, log + [final, Closed]);
    CountedAllSnoc(init + [log + [final, Closed]], [Pushed(Started)]);
    CountedAllSnoc(init + [log + [final, Closed]], []);
    assert CountedAll(streams) + [] == CountedAll(streams);
  }

  lemma StillSome(streams: seq<AdapterLog>, e: StreamEvent, fault: Fault)
    requires streams != []
    ensures Append(streams, e) != [] && SplitUpTo(streams, fault) != []
  {
  }

  lemma SplitIs(streams: seq<AdapterLog>)
    requires streams != []
    ensures SplitUpTo(streams, NoFault) == SplitUpTo(streams, AtPush) == Split(streams)
  {
  }

  /** Conservation: whatever fails, a delta that gets through is added once, at the end, and
      nothing else is. */
  lemma DeltaCounts(limit: nat, logs: seq<AdapterLog>, before: string, d: string, fault: Fault)
    requires logs != [] && d != ""
    ensures var after := WithDelta(limit, logs, before, d, fault);
            && CountedAll(after) == CountedAll(logs) + (if Arrives(limit, before, d, fault) then [d] else [])
            && |after| == |logs| + if Opens(limit, before, d, fault) then 1 else 0
  {
    hide Counted, CountedAll, Append, Split, SplitUpTo, IsNaturalBreakPoint, SoftLimit;
    AppendCounts(logs, Delta(d, false));
    SplitCounts(logs, fault);
    SplitIs(logs);
    SplitCounts(logs, NoFault);
    AppendCounts(Split(logs), Delta(d, false));
    SplitCounts(Append(logs, Delta(d, false)), fault);
    assert CountedAll(logs) + [] == CountedAll(logs);
  }

  // ----- Where a stream breaks -----

  /** The text ends with a line break, or nothing but white space follows the end of a sentence. */
  predicate EndsSentence(text: string) {
    || (text != "" && text[|text| - 1] == '\n')
    || exists k :: 0 <= k < |text| && AllSpace(text[k + 1..]) &&
         text[k] in {'.', '!', '?', ';', '\U{3002}', '\U{FF01}', '\U{FF1F}', '\U{2026}', '\U{22EF}', '\U{FF1B}'}
  }

  lemma BreakMeans(text: string)
    ensures IsNaturalBreakPoint(text) <==> EndsSentence(text)
  {
    hide TrimRight;
    var r := TrimRight(text);
    assert r != "" ==> r[|r| - 1] == text[|r| - 1];
    if k :| 0 <= k < |text| && AllSpace(text[k + 1..]) && text[k] in SENTENCE_TERMINATORS {
      SuffixAt(text, |r|, k);
      SuffixAt(text, k + 1, |r| - 1);
    }
  }

  lemma SuffixAt(text: string, from: nat, k: int)
    requires from <= |text| && k < |text|
    ensures from <= k ==> text[from..][k - from] == text[k]
  {
  }

  /** The counted deltas, stream by stream. */
  function CountedEach(logs: seq<AdapterLog>): seq<seq<string>> {
    seq(|logs|, i requires 0 <= i < |logs| => Counted(logs[i]))
  }

  /** Where a delta goes that no fault gets in the way of: on the current stream as long as the
      text fits the limit, else on a new one; and with the end of a sentence beyond the soft
      limit, at three quarters, the next stream begins. */
  predicate Placed(limit: nat, logs: seq<AdapterLog>, text: string, d: string, logs': seq<AdapterLog>, text': string)
    requires logs != []
  {
    var groups, groups' := CountedEach(logs), CountedEach(logs');
    var last := |groups| - 1;
    var joined := groups[last := groups[last] + [d]];
    if limit == 0 then groups' == joined
    else if |text + d| > limit then groups' == groups + [[d]] && text' == d
    else if |text + d| > limit - limit / 4 && EndsSentence(text + d) then groups' == joined + [[]] && text' == ""
    else groups' == joined && text' == text + d
  }

  lemma DeltaIsPlaced(limit: nat, logs: seq<AdapterLog>, text: string, d: string)
    requires logs != [] && d != ""
    ensures Placed(limit, logs, text, d, WithDelta(limit, logs, text, d, NoFault), NextText(limit, text, d, NoFault))
  {
    hide Counted, Append, Split, SplitUpTo, IsNaturalBreakPoint, EndsSentence;
    AppendCounts(logs, Delta(d, false));
    SplitCounts(logs, NoFault);
    SplitIs(logs);
    AppendCounts(Split(logs), Delta(d, false));
    SplitCounts(Append(logs, Delta(d, false)), NoFault);
    BreakMeans(text + d);
    assert [] + [d] == [d];
    var groups, groups' := CountedEach(logs), CountedEach(WithDelta(limit, logs, text, d, NoFault));
    assert |text + d| == |text| + |d|;
  }

  // ----- The limit -----

  /** Every stream is within the limit, and the current one has no more than is counted for it. */
  ghost predicate Bounded(streams: seq<AdapterLog>, text: string, limit: nat) {
    && streams != []
    && AllWithin(streams, limit)
    && |Concat(Counted(streams[|streams| - 1]))| <= |text|
  }

  ghost predicate AllWithin(streams: seq<AdapterLog>, limit: nat) {
    forall i :: 0 <= i < |streams| ==> WithinLimit(streams[i], limit)
  }

  lemma AppendBounded(streams: seq<AdapterLog>, text: string, limit: nat, e: StreamEvent)
    requires Bounded(streams, text, limit)
    requires |text + Concat(CountedOf(e))| <= limit || !IsCounted(e) || Counted(streams[|streams| - 1]) == []
    ensures Bounded(Append(streams, e), text + Concat(CountedOf(e)), limit)
  {
    hide Counted, CountedAll, Append, Concat;
    var last, after := |streams| - 1, Append(streams, e);
    AppendCounts(streams, e);
    ConcatAppend(Counted(streams[last]), CountedOf(e));
    NothingCounted();
    assert Counted(streams[last]) + [] == Counted(streams[last]);
    assert forall i :: 0 <= i < last ==> after[i] == streams[i] && WithinLimit(streams[i], limit);
  }

  lemma SplitBounded(streams: seq<AdapterLog>, text: string, limit: nat, fault: Fault)
    requires Bounded(streams, text, limit)
    ensures Bounded(SplitUpTo(streams, fault), if StopsShort(fault) then text else "", limit)
  {
    hide Counted, CountedAll, SplitUpTo, Concat, StopsShort;
    var last, after := |streams| - 1, SplitUpTo(streams, fault);
    SplitCounts(streams, fault);
    NothingCounted();
    assert forall i :: 0 <= i < last ==> after[i] == streams[i] && WithinLimit(streams[i], limit);
    assert WithinLimit(streams[last], limit);
  }

  lemma OneDelta(d: string)
    ensures Concat([d]) == d
  {
  }

  lemma DeltaBounded(limit: nat, logs: seq<AdapterLog>, before: string, d: string, fault: Fault)
    requires limit > 0 && d != "" && Bounded(logs, before, limit) && !Slips(limit, before, d, fault)
    ensures Bounded(WithDelta(limit, logs, before, d, fault), NextText(limit, before, d, fault), limit)
  {
    hide Counted, Concat, Append, Split, SplitUpTo, IsNaturalBreakPoint, SoftLimit, AllWithin;
    var event := Delta(d, false);
    OneDelta(d);
    SplitIs(logs);
    if Overflows(limit, before, d) {
      SplitBounded(logs, before, limit, fault);
      if fault == NoFault {
        SplitCounts(logs, NoFault);
        AppendBounded(Split(logs), "", limit, event);
        assert "" + d == d;
      }
    } else {
      AppendBounded(logs, before, limit, event);
      SplitBounded(Append(logs, event), before + d, limit, fault);
    }
  }

  /** After a slip the current stream has more than is counted for it. */
  lemma SlipCounts(limit: nat, logs: seq<AdapterLog>, before: string, d: string, fault: Fault)
    requires limit > 0 && d != "" && logs != [] && Slips(limit, before, d, fault)
    ensures var after := WithDelta(limit, logs, before, d, fault);
            && NextText(limit, before, d, fault) == "" && after != []
            && Counted(after[|after| - 1]) == Counted(logs[|logs| - 1]) + [d]
  {
    hide Counted, CountedAll, Append, SplitUpTo, IsNaturalBreakPoint, SoftLimit;
    AppendCounts(logs, Delta(d, false));
    SplitCounts(Append(logs, Delta(d, false)), fault);
  }

  /** So a further delta that fits what is counted makes the stream too long. */
  lemma Overfills(limit: nat, logs: seq<AdapterLog>, earlier: seq<string>, d: string, next: string)
    requires limit > 0 && d != "" && logs != [] && Counted(logs[|logs| - 1]) == earlier + [d] && |next| == limit
    ensures !AllWithin(WithDelta(limit, logs, "", next, NoFault), limit)
  {
    hide Counted, CountedAll, Append, Split, SplitUpTo, IsNaturalBreakPoint, SoftLimit, Concat;
    var last, event, after := |logs| - 1, Delta(next, false), WithDelta(limit, logs, "", next, NoFault);
    AppendCounts(logs, event);
    SplitCounts(Append(logs, event), NoFault);
    assert Counted(after[last]) == earlier + [d] + [next];
    ConcatSnoc(earlier, d);
    ConcatSnoc(earlier + [d], next);
    assert !WithinLimit(after[last], limit);
  }

  /** The limit of the streams outlives a delta and its failing adapter call - it holds now and
      after any one delta that follows - if and only if the delta is no slip. */
  lemma LimitExactly(limit: nat, logs: seq<AdapterLog>, before: string, d: string, fault: Fault)
    requires limit > 0 && d != "" && Bounded(logs, before, limit)
    ensures var after, text := WithDelta(limit, logs, before, d, fault), NextText(limit, before, d, fault);
            && after != []
            && (Bounded(after, text, limit) <==> !Slips(limit, before, d, fault))
            && ((forall next :: next != "" ==> AllWithin(WithDelta(limit, after, text, next, NoFault), limit))
                <==> !Slips(limit, before, d, fault))
  {
    hide Slips, WithDelta, NextText, AllWithin, Counted, Concat;
    var after, text := WithDelta(limit, logs, before, d, fault), NextText(limit, before, d, fault);
    if Slips(limit, before, d, fault) {
      SlipCounts(limit, logs, before, d, fault);
      var earlier, next := Counted(logs[|logs| - 1]), seq(limit, _ => 'x');
      ConcatSnoc(earlier, d);
      Overfills(limit, after, earlier, d, next);
      assert next != "";
    } else {
      DeltaBounded(limit, logs, before, d, fault);
      forall next | next != ""
        ensures AllWithin(WithDelta(limit, after, text, next, NoFault), limit)
      {
        NoSlip(limit, text, next);
        DeltaBounded(limit, after, text, next, NoFault);
      }
    }
  }

  lemma NoSlip(limit: nat, before: string, d: string)
    ensures !Slips(limit, before, d, NoFault) && !Misshapes(limit, before, d, NoFault)
  {
  }

  // ----- Finals, closes and starts -----

  /** Every stream but the last is finished, every one but the first was told to start, and the
      last is open. */
  ghost predicate Shaped(streams: seq<AdapterLog>) {
    && streams != []
    && (forall i :: 0 <= i < |streams| - 1 ==> Finished(streams[i]))
    && Closed !in streams[|streams| - 1]
    && (forall i :: 1 <= i < |streams| ==> Reopened(streams[i]))
  }

  lemma AppendShaped(streams: seq<AdapterLog>, e: StreamEvent)
    requires Shaped(streams)
    ensures Shaped(Append(streams, e))
  {
    hide Finished;
    var last, after := |streams| - 1, Append(streams, e);
    assert forall i :: 0 <= i < last ==> after[i] == streams[i];
    assert last >= 1 ==> after[last][0] == streams[last][0];
  }

  lemma SplitShaped(streams: seq<AdapterLog>, fault: Fault)
    requires Shaped(streams)
    ensures Shaped(SplitUpTo(streams, fault)) <==> fault !in {AtReopen, AtStatus}
  {
    hide Finished;
    var last, after := |streams| - 1, SplitUpTo(streams, fault);
    assert forall i :: 0 <= i < last ==> after[i] == streams[i];
    FinishedLog(streams[last]);
    match fault
    case AtFinal =>
    case AtClose =>
      AppendShaped(streams, Final(EMPTY_MESSAGE));
    case AtReopen =>
      var log := after[last];
      assert after[|after| - 1] == log && log[|log| - 1] == Closed;
    case AtStatus =>
      assert !Reopened(after[last + 1]);
    case _ =>
      assert last >= 1 ==> after[last][0] == streams[last][0];
      assert Reopened(after[last + 1]);
  }

  lemma FinishedLog(log: AdapterLog)
    requires Closed !in log
    ensures Finished(log + [Pushed(Final(EMPTY_MESSAGE)), Closed])
  {
    var finished := log + [Pushed(Final(EMPTY_MESSAGE)), Closed];
    assert finished[..|finished| - 1] == log + [Pushed(Final(EMPTY_MESSAGE))];
  }

  /** The streams are finished and started as they should be, if and only if no split has stopped
      with its stream closed or with a new one that is not told to start. */
  lemma ShapeExactly(limit: nat, logs: seq<AdapterLog>, before: string, d: string, fault: Fault)
    requires Shaped(logs)
    ensures Shaped(WithDelta(limit, logs, before, d, fault)) <==> !Misshapes(limit, before, d, fault)
  {
    hide Append, Split, SplitUpTo, IsNaturalBreakPoint, SoftLimit, Finished, Shaped;
    var event := Delta(d, false);
    ShapedSome(logs);
    SplitShaped(logs, fault);
    SplitIs(logs);
    SplitShaped(logs, NoFault);
    AppendShaped(Split(logs), event);
    AppendShaped(logs, event);
    SplitShaped(Append(logs, event), fault);
  }

  lemma ShapedSome(logs: seq<AdapterLog>)
    requires Shaped(logs)
    ensures logs != []
  {
  }

  // ----- Splits are rare -----

  /** Streams that are told to start are rare, whatever fails: counting each rune that is pushed
      twice, no two of them are less than a soft limit apart. */
  lemma StartsAreRare(limit: nat, starts: nat, before: string, d: string, fault: Fault, total: nat)
    requires limit > 0 && starts * SoftLimit(limit) + |before| <= 2 * total
    ensures (starts + if Starts(limit, before, d, fault) then 1 else 0) * SoftLimit(limit)
            + |NextText(limit, before, d, fault)| <= 2 * (total + |d|)
  {
    hide IsNaturalBreakPoint;
    var soft := SoftLimit(limit);
    assert (starts + 1) * soft == starts * soft + soft;
  }

  /** As long as nothing fails, what is counted for the current stream is what it has. */
  lemma CountIsExact(limit: nat, logs: seq<AdapterLog>, before: string, d: string, fault: Fault)
    requires limit > 0 && d != "" && logs != [] && before == Concat(Counted(logs[|logs| - 1]))
    requires !Occurs(limit, before, d, fault)
    ensures var after := WithDelta(limit, logs, before, d, fault);
            after != [] && NextText(limit, before, d, fault) == Concat(Counted(after[|after| - 1]))
  {
    hide Counted, CountedAll, Append, Split, SplitUpTo, IsNaturalBreakPoint, SoftLimit, Concat;
    var event := Delta(d, false);
    NothingCounted();
    SplitIs(logs);
    SplitCounts(logs, NoFault);
    AppendCounts(Split(logs), event);
    AppendCounts(logs, event);
    SplitCounts(Append(logs, event), NoFault);
    ConcatSnoc(Counted(logs[|logs| - 1]), d);
    OneDelta(d);
    assert [] + [d] == [d];
  }

  // ----- What is kept from delta to delta -----

  /** What has become of the counted deltas pushed so far: those that have reached a stream, the
      splits whose new stream was told to start, and whether an adapter call made for a delta has
      ever failed, a delta has been a slip, and a split has been misshapen. */
  datatype Ledger = Ledger(
    pushed: seq<string>, arrived: seq<string>, starts: nat, faulty: bool, slipped: bool, misshapen: bool)

  const BLANK_LEDGER := Ledger([], [], 0, false, false, false)

  function Noted(limit: nat, ledger: Ledger, before: string, d: string, fault: Fault): Ledger {
    Ledger(ledger.pushed + [d],
           ledger.arrived + (if Arrives(limit, before, d, fault) then [d] else []),
           ledger.starts + (if Starts(limit, before, d, fault) then 1 else 0),
           ledger.faulty || Occurs(limit, before, d, fault),
           ledger.slipped || Slips(limit, before, d, fault),
           ledger.misshapen || Misshapes(limit, before, d, fault))
  }

  /** Whatever fails, no counted delta is lost, doubled or moved once it has got through. */
  ghost predicate Conserved(streams: seq<AdapterLog>, splits: nat, ledger: Ledger) {
    && |streams| == splits + 1 && CountedAll(streams) == ledger.arrived
    && (!ledger.faulty ==> ledger.arrived == ledger.pushed)
  }

  /** Whatever fails, the counters are kept, and streams that are told to start are rare. */
  ghost predicate Counting(limit: nat, runes: nat, text: string, splits: nat, ledger: Ledger) {
    && ledger.starts <= splits
    && if limit > 0 then
         runes == |text| && ledger.starts * SoftLimit(limit) + |text| <= 2 * |Concat(ledger.pushed)|
       else splits == 0 && text == "" && runes == |Concat(ledger.pushed)|
  }

  /** The limit is kept unless a delta was a slip; finals, closes and starts are as they should be
      unless a split was misshapen; and without any fault the counters are exact. */
  ghost predicate Promised(limit: nat, streams: seq<AdapterLog>, text: string, splits: nat, ledger: Ledger) {
    && streams != []
    && (ledger.slipped || ledger.misshapen ==> ledger.faulty)
    && (limit > 0 && !ledger.slipped ==> Bounded(streams, text, limit))
    && (limit > 0 && !ledger.misshapen ==> Shaped(streams) && ledger.starts == splits)
    && (limit > 0 && !ledger.faulty ==> text == Concat(Counted(streams[|streams| - 1])))
  }

  ghost predicate Kept(limit: nat, streams: seq<AdapterLog>, runes: nat, text: string, splits: nat, ledger: Ledger) {
    && Conserved(streams, splits, ledger)
    && Counting(limit, runes, text, splits, ledger)
    && Promised(limit, streams, text, splits, ledger)
  }

  lemma Ready(limit: nat, streams: seq<AdapterLog>, runes: nat, text: string, splits: nat, ledger: Ledger)
    requires Kept(limit, streams, runes, text, splits, ledger)
    ensures streams != [] && if limit > 0 then runes == |text| else text == "" && splits == 0
  {
    hide Bounded, Shaped, SoftLimit, CountedAll, Counted, Concat;
  }

  lemma NothingPushed(limit: nat)
    ensures Kept(limit, [[]], 0, "", 0, BLANK_LEDGER)
  {
    NothingCounted();
    assert CountedAll([[]][..0]) == [];
  }

  lemma DeltaConserved(limit: nat, streams: seq<AdapterLog>, text: string, splits: nat, ledger: Ledger,
                       d: string, fault: Fault)
    requires Conserved(streams, splits, ledger) && d != ""
    ensures Conserved(WithDelta(limit, streams, text, d, fault),
                      splits + (if Opens(limit, text, d, fault) then 1 else 0), Noted(limit, ledger, text, d, fault))
  {
    hide WithDelta, Opens, Arrives, Occurs, Starts, Slips, Misshapes, CountedAll;
    FaultsOccur(limit, text, d, fault);
    DeltaCounts(limit, streams, text, d, fault);
  }

  lemma DeltaCounting(limit: nat, runes: nat, text: string, splits: nat, ledger: Ledger, d: string, fault: Fault)
    requires Counting(limit, runes, text, splits, ledger)
    ensures var text' := NextText(limit, text, d, fault);
            Counting(limit, if limit > 0 then |text'| else runes + |d|, text',
                     splits + (if Opens(limit, text, d, fault) then 1 else 0), Noted(limit, ledger, text, d, fault))
  {
    hide Opens, Starts, Arrives, Occurs, Slips, Misshapes, Concat, SoftLimit;
    FaultsOccur(limit, text, d, fault);
    ConcatSnoc(ledger.pushed, d);
    if limit > 0 {
      hide NextText;
      StartsAreRare(limit, ledger.starts, text, d, fault, |Concat(ledger.pushed)|);
    }
  }

  lemma DeltaPromised(limit: nat, streams: seq<AdapterLog>, text: string, splits: nat, ledger: Ledger,
                      d: string, fault: Fault)
    requires Promised(limit, streams, text, splits, ledger) && d != ""
    ensures Promised(limit, WithDelta(limit, streams, text, d, fault), NextText(limit, text, d, fault),
                     splits + (if Opens(limit, text, d, fault) then 1 else 0), Noted(limit, ledger, text, d, fault))
  {
    hide WithDelta, NextText, Opens, Starts, Arrives, Occurs, Slips, Misshapes, Bounded, Shaped, Concat, Counted;
    FaultsOccur(limit, text, d, fault);
    DeltaCounts(limit, streams, text, d, fault);
    if limit > 0 {
      if !ledger.slipped && !Slips(limit, text, d, fault) {
        DeltaBounded(limit, streams, text, d, fault);
      }
      if !ledger.misshapen {
        ShapeExactly(limit, streams, text, d, fault);
      }
      if !ledger.faulty && !Occurs(limit, text, d, fault) {
        CountIsExact(limit, streams, text, d, fault);
      }
    }
  }

  /** Every delta keeps all of this, whichever adapter call fails. */
  lemma DeltaKept(limit: nat, streams: seq<AdapterLog>, runes: nat, text: string, splits: nat, ledger: Ledger,
                  d: string, fault: Fault, runes': nat, splits': nat)
    requires Kept(limit, streams, runes, text, splits, ledger) && d != ""
    requires runes' == if limit > 0 then |NextText(limit, text, d, fault)| else runes + |d|
    requires splits' == splits + if Opens(limit, text, d, fault) then 1 else 0
    ensures Kept(limit, WithDelta(limit, streams, text, d, fault), runes', NextText(limit, text, d, fault), splits',
                 Noted(limit, ledger, text, d, fault))
  {
    hide Conserved, Counting, Promised, NextText, Opens, Noted;
    Ready(limit, streams, runes, text, splits, ledger);
    DeltaConserved(limit, streams, text, splits, ledger, d, fault);
    DeltaCounting(limit, runes, text, splits, ledger, d, fault);
    DeltaPromised(limit, streams, text, splits, ledger, d, fault);
  }

  /** An event that does not count changes none of this. */
  lemma EventKept(limit: nat, streams: seq<AdapterLog>, runes: nat, text: string, splits: nat, ledger: Ledger,
                  e: StreamEvent)
    requires Kept(limit, streams, runes, text, splits, ledger) && !IsCounted(e)
    ensures streams != [] && Kept(limit, Append(streams, e), runes, text, splits, ledger)
  {
    hide Append, Concat, Counted, CountedAll, Bounded, Shaped, SoftLimit;
    AppendCounts(streams, e);
    NothingCounted();
    assert ledger.arrived + [] == ledger.arrived && text + "" == text;
    assert Counted(streams[|streams| - 1]) + [] == Counted(streams[|streams| - 1]);
    if limit > 0 && !ledger.slipped {
      AppendBounded(streams, text, limit, e);
    }
    if limit > 0 && !ledger.misshapen {
      AppendShaped(streams, e);
    }
  }
}
