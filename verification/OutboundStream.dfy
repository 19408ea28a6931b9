/** The streaming side of outbound delivery: text deltas are forwarded to an adapter stream,
    which is finalised and reopened as it fills up; the closing message is split as well. */
module OutboundStream {
  import opened Text
  import opened Chunking
  import opened OutboundMessages
  import opened StreamSplitting

  // ----- The closing message -----

  /** PlainText of a message: its text, or the visible parts on lines of their own. */
  function PlainText(msg: Message): string {
    if !Blank(msg.text) then TrimSpace(msg.text) else Join(PartLines(msg.parts), NEWLINE)
  }

  function PartLines(parts: seq<Part>): seq<string> {
    if parts == [] then []
    else
      var line := PartLine(parts[|parts| - 1]);
      PartLines(parts[..|parts| - 1]) + if line == "" then [] else [line]
  }

  function PartLine(part: Part): string {
    var text := TrimSpace(part.text);
    match part.kind
    case OtherPart => ""
    case Link => if text != "" then text else TrimSpace(part.url)
    case Emoji => if text != "" then text else TrimSpace(part.emoji)
    case _ => text
  }

  /** What a visible part shows: its text, or else where a link leads, or the emoji. */
  predicate Shows(part: Part, line: string) {
    if part.kind.OtherPart? then line == ""
    else if TrimSpace(part.text) != "" then line == TrimSpace(part.text)
    else if part.kind.Link? then line == TrimSpace(part.url)
    else if part.kind.Emoji? then line == TrimSpace(part.emoji)
    else line == ""
  }

  /** The plain text of a message: its text; or what its parts show, in order, one line each, with
      no line for a part that shows nothing. */
  lemma PlainTextShows(msg: Message) returns (lines: seq<string>)
    ensures |lines| == |msg.parts| && forall i :: 0 <= i < |lines| ==> Shows(msg.parts[i], lines[i])
    ensures TrimSpace(msg.text) != "" ==> PlainText(msg) == TrimSpace(msg.text)
    ensures TrimSpace(msg.text) == "" ==> PlainText(msg) == Join(NotEmpty(lines), "\n")
  {
    hide TrimSpace;
    lines := seq(|msg.parts|, i requires 0 <= i < |msg.parts| => PartLine(msg.parts[i]));
    LinesOfParts(msg.parts, lines);
  }

  /** The pieces that are not empty, in order. */
  function NotEmpty(pieces: seq<string>): seq<string> {
    if pieces == [] then []
    else NotEmpty(pieces[..|pieces| - 1]) + if pieces[|pieces| - 1] == "" then [] else [pieces[|pieces| - 1]]
  }

  lemma {:induction false} LinesOfParts(parts: seq<Part>, lines: seq<string>)
    requires |lines| == |parts| && forall i :: 0 <= i < |parts| ==> lines[i] == PartLine(parts[i])
    ensures PartLines(parts) == NotEmpty(lines)
  {
    hide PartLine;
    if parts != [] {
      LinesOfParts(parts[..|parts| - 1], lines[..|parts| - 1]);
    }
  }

  /** The message a chunk is sent in. */
  function ChunkItem(msg: Message, chunks: seq<string>, i: nat): Message
    requires i < |chunks|
  {
    EMPTY_MESSAGE.(format := msg.format, text := TrimSpace(chunks[i]), thread := msg.thread, reply := msg.reply,
                   metadata := msg.metadata,
                   actions := if i == |chunks| - 1 && msg.attachments == [] then msg.actions else [])
  }

  function AttachmentItem(msg: Message): Message {
    EMPTY_MESSAGE.(attachments := msg.attachments, thread := msg.thread, reply := msg.reply,
                   metadata := msg.metadata, actions := msg.actions)
  }

  /** What the sender makes of one message. */
  function Sent(msg: Message, policy: Policy, hasMarkdown: string -> bool): seq<Message> {
    if msg.IsEmpty() then [] else Outgoings(msg, policy, hasMarkdown).InOrder(policy)
  }

  /** What is sent for the chunks from `start` up to n; blank chunks are skipped. */
  function ChunksSent(msg: Message, chunks: seq<string>, start: nat, n: nat,
                      policy: Policy, hasMarkdown: string -> bool): seq<Message>
    requires start <= n <= |chunks|
  {
    if n == start then []
    else
      ChunksSent(msg, chunks, start, n - 1, policy, hasMarkdown)
      + if Blank(chunks[n - 1]) then [] else Sent(ChunkItem(msg, chunks, n - 1), policy, hasMarkdown)
  }

  /** The chunks of a closing message that has to be split; [] when it goes out as it is. */
  function FinalChunks(msg: Message, policy: Policy, hasMarkdown: string -> bool): seq<string> {
    var normalized := NormalizeMessage(msg, hasMarkdown);
    var text := TrimSpace(PlainText(normalized));
    if policy.textChunkLimit <= 0 || text == "" || |text| <= policy.textChunkLimit then []
    else
      var chunks := Chunks(policy, normalized.format, text);
      if |chunks| <= 1 then [] else chunks
  }

  /** The part of a split closing message that finalises the adapter stream. */
  function FirstFinal(msg: Message, chunks: seq<string>): Message
    requires chunks != []
  {
    msg.(text := chunks[0], parts := [], attachments := [], actions := [])
  }

  // ----- What arrives of a closing message -----

  /** Whether the visible text of a message is over the limit. */
  predicate Long(msg: Message, policy: Policy) {
    policy.textChunkLimit > 0 && |TrimSpace(PlainText(msg))| > policy.textChunkLimit
  }

  /** The closing messages that a stream has been given. */
  function FinalMessages(log: AdapterLog): seq<Message> {
    if log == [] then []
    else
      var e := log[|log| - 1];
      FinalMessages(log[..|log| - 1]) + if e.Pushed? && e.event.Final? then [e.event.message] else []
  }

  /** The events that the current stream has been given in addition. */
  ghost predicate OnlyCurrent(before: seq<AdapterLog>, after: seq<AdapterLog>, more: AdapterLog) {
    && |before| == |after| > 0 && before[..|before| - 1] == after[..|after| - 1]
    && after[|after| - 1] == before[|before| - 1] + more
  }

  /** The actions in one message and the attachments in one. */
  ghost predicate CarriedOnce(parts: seq<Message>, msg: Message) {
    && |WithActions(parts)| == (if msg.actions == [] then 0 else 1)
    && (forall m :: m in WithActions(parts) ==> m.actions == msg.actions)
    && |WithAttachments(parts)| == (if msg.attachments == [] then 0 else 1)
    && (forall m :: m in WithAttachments(parts) ==> m.attachments == msg.attachments)
  }

  /** The parts of a long message: its text in order and within the limit, its actions in one
      message and its attachments in one, all in the same thread and in answer to the same. */
  ghost predicate InParts(parts: seq<Message>, msg: Message, policy: Policy, hasMarkdown: string -> bool) {
    && Squeeze(Concat(Texts(parts))) == Squeeze(PlainText(msg))
    && (forall m :: m in parts ==> |m.text| <= policy.textChunkLimit && Follows(m, msg, FormatOf(msg, hasMarkdown)))
    && CarriedOnce(parts, msg)
  }

  /** A part is in the same thread and in answer to the same as the message, and its text in the
      format given. */
  predicate Follows(m: Message, msg: Message, format: MessageFormat) {
    && m.thread == msg.thread && m.reply == msg.reply && m.metadata == msg.metadata && m.parts == []
    && (m.text != "" ==> m.format == format)
  }

  /** After a split: no text again, the attachments in one message, and the actions with them. */
  ghost predicate WithoutText(parts: seq<Message>, msg: Message) {
    && Concat(Texts(parts)) == ""
    && |WithAttachments(parts)| == (if msg.attachments == [] then 0 else 1)
    && (forall m :: m in WithAttachments(parts) ==> m.attachments == msg.attachments)
    && |WithActions(parts)| == (if msg.actions == [] || msg.attachments == [] then 0 else 1)
    && (forall m :: m in WithActions(parts) ==> m.actions == msg.actions)
    && (forall m :: m in parts ==> m.thread == msg.thread)
  }

  /** A closing message has been delivered: at most one event is added, to the current stream.
      After a split that is an empty one, and the attachments are beside it. Without a split a
      long message arrives in parts, on the stream and beside it together, and any other one
      as it is. */
  ghost predicate FinalArrives(msg: Message, splits: nat, policy: Policy, hasMarkdown: string -> bool,
                               before: seq<AdapterLog>, after: seq<AdapterLog>, beside: seq<Message>)
  {
    exists more: AdapterLog ::
      && OnlyCurrent(before, after, more) && |more| <= 1 && |FinalMessages(more)| == |more|
      && if splits > 0 then FinalMessages(more) == [EMPTY_MESSAGE] && WithoutText(beside, msg)
         else if Long(msg, policy) then InParts(FinalMessages(more) + beside, msg, policy, hasMarkdown)
         else FinalMessages(more) == [msg] && beside == []
  }

  lemma OnCurrent(logs: seq<AdapterLog>, e: StreamEvent)
    requires logs != [] && e.Final?
    ensures OnlyCurrent(logs, Append(logs, e), [Pushed(e)]) && OnlyCurrent(logs, logs, [])
    ensures FinalMessages([Pushed(e)]) == [e.message] && FinalMessages([]) == []
  {
    assert [Pushed(e)][..0] == [];
    var log := logs[|logs| - 1];
    assert log + [] == log;
  }

  class ManagerOutboundStream {
    const policy: Policy
    const hasMarkdown: string -> bool
    const canReopen: bool
    var streams: seq<AdapterLog>  // what each adapter stream has been told; the last one is current
    var outbox: seq<Message>      // messages sent beside the stream
    var deltaRunes: nat
    var deltaText: string
    var splitCount: nat
    ghost var ledger: Ledger      // what has become of the counted deltas pushed so far

    constructor (policy: Policy, hasMarkdown: string -> bool, canReopen: bool)
      ensures Valid() && ledger == BLANK_LEDGER && deltaText == "" && outbox == [] && streams == [[]]
      ensures this.policy == policy && this.hasMarkdown == hasMarkdown && this.canReopen == canReopen
    {
      this.policy, this.hasMarkdown, this.canReopen := policy, hasMarkdown, canReopen;
      streams, outbox, deltaRunes, deltaText, splitCount := [[]], [], 0, "", 0;
      ledger := BLANK_LEDGER;
      new;
      hide Kept;
      NothingPushed(Limit());
    }

    /** The limit of a stream, or 0 if the text is not to be split. */
    ghost function Limit(): nat {
      if policy.textChunkLimit > 0 && canReopen then policy.textChunkLimit else 0
    }

    ghost predicate Valid()
      reads this
    {
      Kept(Limit(), streams, deltaRunes, deltaText, splitCount, ledger)
    }

    /** `works` is the outcome of the call of the adapter. */
    method PushPrepared(e: StreamEvent, works: bool) returns (ok: bool)
      requires streams != []
      modifies this`streams
      ensures ok == works && streams == if works then Append(old(streams), e) else old(streams)
    {
      if works {
        var last := |streams| - 1;
        streams := streams[..last] + [streams[last] + [Pushed(e)]];
      }
      ok := works;
    }

    method SplitStream(fault: Fault) returns (ok: bool)
      requires streams != []
      modifies this`streams, this`splitCount
      ensures streams == SplitUpTo(old(streams), fault) && ok == (fault in {NoFault, AtPush})
      ensures splitCount == old(splitCount) + if StopsShort(fault) then 0 else 1
    {
      ghost var init, log := streams[..|streams| - 1], streams[|streams| - 1];
      var final := Final(EMPTY_MESSAGE);
      ok := PushPrepared(final, fault != AtFinal);
      if !ok {
        return;
      }
      var last := |streams| - 1;
      assert streams[..last] == init && streams[last] == log + [Pushed(final)];
      if fault == AtClose {
        return false;
      }
      streams := streams[..last] + [streams[last] + [Closed]];
      assert log + [Pushed(final)] + [Closed] == log + [Pushed(final), Closed];
      if fault == AtReopen {
        return false;
      }
      streams := streams + [[]];
      splitCount := splitCount + 1;
      assert streams[..|streams| - 1] == init + [log + [Pushed(final), Closed]];
      assert [] + [Pushed(Started)] == [Pushed(Started)];
      ok := PushPrepared(Started, fault != AtStatus);
    }

    /** pushDelta: the counters and streams follow the specification for each adapter call that
        may fail, and the promises are kept as it says. */
    method PushDelta(d: string, fault: Fault) returns (ok: bool)
      requires Valid() && d != ""
      modifies this
      ensures Valid() && outbox == old(outbox)
      ensures ledger == Noted(Limit(), old(ledger), old(deltaText), d, fault)
      ensures deltaText == NextText(Limit(), old(deltaText), d, fault)
      ensures streams == WithDelta(Limit(), old(streams), old(deltaText), d, fault)
      ensures ok <==> !Occurs(Limit(), old(deltaText), d, fault)
      ensures fault == NoFault ==> Placed(Limit(), old(streams), old(deltaText), d, streams, deltaText)
    {
      hide Kept, Noted, WithDelta, NextText, Occurs, Opens, Placed;
      Ready(Limit(), streams, deltaRunes, deltaText, splitCount, ledger);
      DeltaIsPlaced(Limit(), streams, deltaText, d);
      ghost var runes, text, splits, logs := deltaRunes, deltaText, splitCount, streams;
      ok := MoveOn(d, fault);
      DeltaKept(Limit(), logs, runes, text, splits, ledger, d, fault, deltaRunes, splitCount);
      ledger := Noted(Limit(), ledger, text, d, fault);
    }

    /** What pushDelta does, branch by branch. */
    method MoveOn(d: string, fault: Fault) returns (ok: bool)
      requires streams != [] && d != ""
      requires if Limit() > 0 then deltaRunes == |deltaText| else deltaText == ""
      modifies this`streams, this`deltaRunes, this`deltaText, this`splitCount
      ensures streams == WithDelta(Limit(), old(streams), old(deltaText), d, fault)
      ensures deltaText == NextText(Limit(), old(deltaText), d, fault)
      ensures deltaRunes == if Limit() > 0 then |deltaText| else old(deltaRunes) + |d|
      ensures splitCount == old(splitCount) + if Opens(Limit(), old(deltaText), d, fault) then 1 else 0
      ensures ok <==> !Occurs(Limit(), old(deltaText), d, fault)
    {
      hide Append, Split, SplitUpTo, IsNaturalBreakPoint;
      SplitIs(streams);
      StillSome(streams, Delta(d, false), fault);
      var event := Delta(d, false);
      if policy.textChunkLimit <= 0 || !canReopen {
        deltaRunes := deltaRunes + |d|;
        ok := PushPrepared(event, fault != AtPush);
        return;
      }
      var newRunes := |d|;
      var afterRunes := deltaRunes + newRunes;
      var hardLimit := policy.textChunkLimit;
      var softLimit := hardLimit - hardLimit / STREAM_SPLIT_SOFT_RATIO;
      if afterRunes <= softLimit {
        deltaRunes := afterRunes;
        deltaText := deltaText + d;
        ok := PushPrepared(event, fault != AtPush);
        return;
      }
      if afterRunes <= hardLimit {
        deltaRunes := afterRunes;
        deltaText := deltaText + d;
        ok := PushPrepared(event, fault != AtPush);
        if ok && IsNaturalBreakPoint(deltaText) {
          deltaRunes := 0;
          deltaText := "";
          ok := SplitStream(fault);
        }
        return;
      }
      ok := SplitFirst(d, fault);
    }

    /** The branch for a delta that would overflow the stream. */
    method SplitFirst(d: string, fault: Fault) returns (ok: bool)
      requires streams != [] && Overflows(Limit(), deltaText, d) && deltaRunes == |deltaText|
      modifies this`streams, this`deltaRunes, this`deltaText, this`splitCount
      ensures streams == WithDelta(Limit(), old(streams), old(deltaText), d, fault)
      ensures deltaText == NextText(Limit(), old(deltaText), d, fault) && deltaRunes == |deltaText|
      ensures splitCount == old(splitCount) + if Opens(Limit(), old(deltaText), d, fault) then 1 else 0
      ensures ok <==> !Occurs(Limit(), old(deltaText), d, fault)
    {
      hide Append, Split, SplitUpTo, IsNaturalBreakPoint, SoftLimit;
      SplitIs(streams);
      StillSome(streams, Delta(d, false), fault);
      ok := SplitStream(fault);
      if !ok {
        return;
      }
      deltaRunes := |d|;
      deltaText := "" + d;
      ok := PushPrepared(Delta(d, false), fault != AtPush);
    }

    /** What the closing message adds to the current stream, and what is sent beside it.
        `pushOk` is the outcome of the push on the stream. */
    ghost function WithFinal(logs: seq<AdapterLog>, msg: Message, splits: nat, pushOk: bool): seq<AdapterLog>
      requires logs != []
    {
      var chunks := FinalChunks(msg, policy, hasMarkdown);
      if !pushOk then logs
      else if splits > 0 then Append(logs, Final(EMPTY_MESSAGE))
      else if chunks == [] then Append(logs, Final(msg))
      else Append(logs, Final(FirstFinal(NormalizeMessage(msg, hasMarkdown), chunks)))
    }

    /** A failing push is made good only for the first chunk of a split message. */
    ghost function BesideFinal(msg: Message, splits: nat, pushOk: bool): seq<Message> {
      var chunks := FinalChunks(msg, policy, hasMarkdown);
      if splits > 0 then
        if pushOk then AttachmentSends(msg.(reply := "", metadata := ""), policy, hasMarkdown) else []
      else if chunks == [] then []
      else FinalSends(NormalizeMessage(msg, hasMarkdown), chunks, pushOk, policy, hasMarkdown)
    }

    /** `sends` is how many messages beside the stream can be sent before one fails. */
    ghost predicate FinalSucceeds(msg: Message, splits: nat, pushOk: bool, sends: nat) {
      && (pushOk || (splits == 0 && FinalChunks(msg, policy, hasMarkdown) != []))
      && |BesideFinal(msg, splits, pushOk)| <= sends
    }

    /** What the closing message has added to the current stream and beside it, if the push of it
        is reported to have succeeded. */
    lemma FinalReaches(logs: seq<AdapterLog>, msg: Message, splits: nat, pushOk: bool)
      requires logs != [] && (pushOk || (splits == 0 && FinalChunks(msg, policy, hasMarkdown) != []))
      ensures FinalArrives(msg, splits, policy, hasMarkdown, logs, WithFinal(logs, msg, splits, pushOk),
                           BesideFinal(msg, splits, pushOk))
    {
      hide FinalChunks, Append, Long, InParts, AttachmentSends, FinalSends, FinalMessages;
      OnCurrent(logs, Final(EMPTY_MESSAGE));
      OnCurrent(logs, Final(msg));
      LongIsSplit(msg, policy, hasMarkdown);
      if splits > 0 {
        AfterSplitInParts(msg, policy, hasMarkdown);
      } else if Long(msg, policy) {
        var chunks := FinalChunks(msg, policy, hasMarkdown);
        var normalized := NormalizeMessage(msg, hasMarkdown);
        OnCurrent(logs, Final(FirstFinal(normalized, chunks)));
        LongInParts(msg, policy, hasMarkdown, pushOk);
      }
    }

    /** The same, with what has been sent since `before`. */
    lemma Arrived(logs: seq<AdapterLog>, before: seq<Message>, msg: Message, splits: nat, pushOk: bool, sends: nat)
      requires logs != []
      ensures FinalSucceeds(msg, splits, pushOk, sends) ==>
                FinalArrives(msg, splits, policy, hasMarkdown, logs, WithFinal(logs, msg, splits, pushOk),
                             (before + Prefix(BesideFinal(msg, splits, pushOk), sends))[|before|..])
    {
      hide FinalArrives, WithFinal, BesideFinal, FinalChunks;
      if FinalSucceeds(msg, splits, pushOk, sends) {
        FinalReaches(logs, msg, splits, pushOk);
        var all := BesideFinal(msg, splits, pushOk);
        assert (before + all)[|before|..] == all;
      }
    }

    /** Send of the reply sender: the message is split up and the parts are sent, up to the first
        one that fails. */
    method Send(msg: Message, sends: nat) returns (ok: bool, left: nat)
      modifies this`outbox
      ensures var all := Sent(msg, policy, hasMarkdown);
              && outbox == old(outbox) + Prefix(all, sends)
              && ok == (!msg.IsEmpty() && |all| <= sends)
              && left == if |all| <= sends then sends - |all| else 0
    {
      hide Outgoings, Prefix;
      var r := BuildOutboundMessages(msg, policy, hasMarkdown);
      match r
      case MessageRequired =>
        NothingToSend(sends);
        assert outbox + [] == outbox;
        return false, sends;
      case Built(messages) =>
        ok, left := SendAll(messages, sends);
    }

    method SendAll(messages: seq<Message>, sends: nat) returns (ok: bool, left: nat)
      modifies this`outbox
      ensures outbox == old(outbox) + Prefix(messages, sends)
      ensures ok == (|messages| <= sends) && left == if ok then sends - |messages| else 0
    {
      left := sends;
      for i := 0 to |messages|
        invariant outbox == old(outbox) + messages[..i] && left + i == sends
      {
        if left == 0 {
          return false, 0;
        }
        assert messages[..i + 1] == messages[..i] + [messages[i]];
        outbox := outbox + [messages[i]];
        left := left - 1;
      }
      assert messages[..|messages|] == messages;
      ok := true;
    }

    /** Any event that does not count. */
    method PushUncounted(e: StreamEvent, pushOk: bool) returns (ok: bool)
      requires Valid() && !IsCounted(e)
      modifies this`streams
      ensures Valid() && ok == pushOk && streams == if pushOk then Append(old(streams), e) else old(streams)
    {
      hide Append, Kept;
      EventKept(Limit(), streams, deltaRunes, deltaText, splitCount, ledger, e);
      ok := PushPrepared(e, pushOk);
    }

    method PushFinalAfterSplit(msg: Message, pushOk: bool, sends: nat) returns (ok: bool)
      requires Valid() && splitCount > 0
      modifies this`streams, this`outbox
      ensures Valid()
      ensures streams == WithFinal(old(streams), msg, splitCount, pushOk)
      ensures outbox == old(outbox) + Prefix(BesideFinal(msg, splitCount, pushOk), sends)
      ensures ok <==> FinalSucceeds(msg, splitCount, pushOk, sends)
      ensures ok ==>
                FinalArrives(msg, splitCount, policy, hasMarkdown, old(streams), streams, outbox[|old(outbox)|..])
    {
      hide Kept, Concat, Sent, Append, FinalChunks, FinalArrives;
      Ready(Limit(), streams, deltaRunes, deltaText, splitCount, ledger);
      Arrived(streams, outbox, msg, splitCount, pushOk, sends);
      assert outbox + [] == outbox;
      ok := PushUncounted(Final(EMPTY_MESSAGE), pushOk);
      if !ok {
        return;
      }
      if |msg.attachments| > 0 {
        var left;
        var rest := EMPTY_MESSAGE.(attachments := msg.attachments, thread := msg.thread, actions := msg.actions);
        ok, left := Send(rest, sends);
      }
    }

    method SendChunkedFinal(msg: Message, chunks: seq<string>, startIndex: nat, sends: nat) returns (ok: bool)
      requires startIndex <= |chunks|
      modifies this`outbox
      ensures var all := ChunksSent(msg, chunks, startIndex, |chunks|, policy, hasMarkdown)
                         + AttachmentSends(msg, policy, hasMarkdown);
              outbox == old(outbox) + Prefix(all, sends) && ok == (|all| <= sends)
    {
      hide Sent, Blank, TrimSpace, ChunksSent, Prefix;
      ghost var before := outbox;
      var left: nat := sends;
      NothingSent(msg, chunks, startIndex, policy, hasMarkdown);
      assert before + [] == before;
      for idx := startIndex to |chunks|
        invariant var sent := ChunksSent(msg, chunks, startIndex, idx, policy, hasMarkdown);
                  outbox == before + sent && left + |sent| == sends
      {
        ghost var sent := ChunksSent(msg, chunks, startIndex, idx, policy, hasMarkdown);
        OneMoreSent(msg, chunks, startIndex, idx, policy, hasMarkdown);
        var chunk := TrimSpace(chunks[idx]);
        BlankMeans(chunks[idx]);
        if chunk == "" {
          assert sent + [] == sent;
          continue;
        }
        var isLast := idx == |chunks| - 1;
        var actions: seq<Action> := [];
        if isLast && |msg.attachments| == 0 {
          actions := msg.actions;
        }
        var item := Message("", msg.format, chunk, [], [], actions, msg.thread, msg.reply, msg.metadata);
        assert item == ChunkItem(msg, chunks, idx);
        TrimmedNotBlank(chunks[idx]);
        ok, left := Send(item, left);
        if !ok {
          SendStops(before, sent, Sent(item, policy, hasMarkdown), msg, chunks, startIndex, idx, sends,
                    policy, hasMarkdown);
          return;
        }
        SendGoesOn(before, sent, Sent(item, policy, hasMarkdown), sends - |sent|);
      }
      ghost var sent := ChunksSent(msg, chunks, startIndex, |chunks|, policy, hasMarkdown);
      ok := true;
      PrefixAppend(sent, AttachmentSends(msg, policy, hasMarkdown), sends);
      if |msg.attachments| > 0 {
        Assoc(before, sent, Prefix(AttachmentSends(msg, policy, hasMarkdown), left));
        ok, left := Send(AttachmentItem(msg), left);
      } else {
        NothingToSend(left);
        assert sent + [] == sent;
      }
    }

    /** The closing message goes out on the stream as it is, or split: its first chunk on the
        stream, or beside it when that push fails, and everything else beside it. */
    method PushFinalWithChunking(msg: Message, pushOk: bool, sends: nat) returns (ok: bool)
      requires Valid()
      modifies this`streams, this`outbox
      ensures Valid()
      ensures streams == WithFinal(old(streams), msg, 0, pushOk)
      ensures outbox == old(outbox) + Prefix(BesideFinal(msg, 0, pushOk), sends)
      ensures ok <==> FinalSucceeds(msg, 0, pushOk, sends)
      ensures ok ==> FinalArrives(msg, 0, policy, hasMarkdown, old(streams), streams, outbox[|old(outbox)|..])
    {
      hide Kept, Concat, Append, FinalArrives, PlainText, TrimSpace, Chunks, ChunksSent, Sent, Blank, Prefix;
      Ready(Limit(), streams, deltaRunes, deltaText, splitCount, ledger);
      Arrived(streams, outbox, msg, 0, pushOk, sends);
      NothingToSend(sends);
      assert outbox + [] == outbox;
      if policy.textChunkLimit <= 0 {
        ok := PushUncounted(Final(msg), pushOk);
        return;
      }
      var normalized := NormalizeMessage(msg, hasMarkdown);
      var text := TrimSpace(PlainText(normalized));
      if text == "" || |text| <= policy.textChunkLimit {
        ok := PushUncounted(Final(msg), pushOk);
        return;
      }
      var chunks := RunChunker(policy, normalized.format, text);
      if |chunks| <= 1 {
        ok := PushUncounted(Final(msg), pushOk);
        return;
      }
      var pushed := PushUncounted(Final(FirstFinal(normalized, chunks)), pushOk);
      if pushed {
        ok := SendChunkedFinal(normalized, chunks, 1, sends);
      } else {
        ok := SendChunkedFinal(normalized, chunks, 0, sends);
      }
    }

    /** Push. `accepted` is the outcome of the event's validation, `fault` the adapter call that
        fails for a counted delta, `pushOk` the outcome of pushing any other event, and `sends`
        how many messages beside the stream can be sent before one fails. */
    method Push(event: StreamEvent, accepted: bool, fault: Fault, pushOk: bool, sends: nat) returns (ok: bool)
      requires Valid()
      modifies this
      ensures Valid()
      ensures deltaText == if accepted && IsCounted(event) then NextText(Limit(), old(deltaText), event.text, fault)
                           else old(deltaText)
      ensures streams ==
              if !accepted then old(streams)
              else if IsCounted(event) then WithDelta(Limit(), old(streams), old(deltaText), event.text, fault)
              else if event.Final? then WithFinal(old(streams), event.message, old(splitCount), pushOk)
              else if pushOk then Append(old(streams), event) else old(streams)
      ensures outbox == old(outbox) +
              if accepted && event.Final? then Prefix(BesideFinal(event.message, old(splitCount), pushOk), sends)
              else []
      ensures ledger ==
              if accepted && IsCounted(event) then Noted(Limit(), old(ledger), old(deltaText), event.text, fault)
              else old(ledger)
      ensures ok == (accepted && (if IsCounted(event) then !Occurs(Limit(), old(deltaText), event.text, fault)
                                  else if event.Final? then FinalSucceeds(event.message, old(splitCount), pushOk, sends)
                                  else pushOk))
      ensures accepted && IsCounted(event) && fault == NoFault ==>
                Placed(Limit(), old(streams), old(deltaText), event.text, streams, deltaText)
      ensures ok && event.Final? ==>
                FinalArrives(event.message, old(splitCount), policy, hasMarkdown, old(streams), streams,
                             outbox[|old(outbox)|..])
    {
      hide FinalArrives, Placed, Kept, Noted, Append, Split, WithDelta, WithFinal, BesideFinal, FinalSucceeds,
        Occurs, NextText, Prefix;
      assert outbox + [] == outbox;
      if !accepted {
        return false;
      }
      if event.Delta? && event.text != "" && !event.reasoning {
        ok := PushDelta(event.text, fault);
      } else if event.Final? {
        if splitCount > 0 {
          ok := PushFinalAfterSplit(event.message, pushOk, sends);
        } else {
          ok := PushFinalWithChunking(event.message, pushOk, sends);
        }
      } else {
        ok := PushUncounted(event, pushOk);
      }
    }
  }

  /** The messages that get through when the first n can be sent. */
  function Prefix(messages: seq<Message>, n: nat): seq<Message> {
    if n < |messages| then messages[..n] else messages
  }

  lemma PrefixAppend(a: seq<Message>, b: seq<Message>, n: nat)
    ensures Prefix(a + b, n) == if n < |a| then Prefix(a, n) else a + Prefix(b, n - |a|)
  {
  }

  lemma NothingToSend(n: nat)
    ensures Prefix([], n) == []
  {
  }

  lemma NothingSent(msg: Message, chunks: seq<string>, start: nat, policy: Policy, hasMarkdown: string -> bool)
    requires start <= |chunks|
    ensures ChunksSent(msg, chunks, start, start, policy, hasMarkdown) == []
  {
  }

  lemma OneMoreSent(msg: Message, chunks: seq<string>, start: nat, i: nat, policy: Policy, hasMarkdown: string -> bool)
    requires start <= i < |chunks|
    ensures ChunksSent(msg, chunks, start, i + 1, policy, hasMarkdown) ==
              ChunksSent(msg, chunks, start, i, policy, hasMarkdown)
              + if Blank(chunks[i]) then [] else Sent(ChunkItem(msg, chunks, i), policy, hasMarkdown)
  {
    hide Blank, Sent, ChunkItem;
  }

  lemma {:induction false} MoreSent(msg: Message, chunks: seq<string>, start: nat, i: nat, n: nat,
                                    policy: Policy, hasMarkdown: string -> bool)
    requires start <= i <= n <= |chunks|
    ensures ChunksSent(msg, chunks, start, i, policy, hasMarkdown)
            <= ChunksSent(msg, chunks, start, n, policy, hasMarkdown)
  {
    hide ChunksSent, Sent, Blank, ChunkItem;
    if i < n {
      MoreSent(msg, chunks, start, i, n - 1, policy, hasMarkdown);
      OneMoreSent(msg, chunks, start, n - 1, policy, hasMarkdown);
      var last := if Blank(chunks[n - 1]) then [] else Sent(ChunkItem(msg, chunks, n - 1), policy, hasMarkdown);
      StillPrefix(ChunksSent(msg, chunks, start, i, policy, hasMarkdown),
                  ChunksSent(msg, chunks, start, n - 1, policy, hasMarkdown), last);
    }
  }

  lemma StillPrefix(a: seq<Message>, b: seq<Message>, c: seq<Message>)
    requires a <= b
    ensures a <= b + c
  {
  }

  lemma SendGoesOn(before: seq<Message>, sent: seq<Message>, parts: seq<Message>, left: nat)
    requires |parts| <= left
    ensures before + sent + Prefix(parts, left) == before + (sent + parts)
  {
  }

  /** When a send fails, what has gone out is a prefix of all there was to send. */
  lemma SendStops(before: seq<Message>, sent: seq<Message>, parts: seq<Message>, msg: Message, chunks: seq<string>,
                  start: nat, i: nat, sends: nat, policy: Policy, hasMarkdown: string -> bool)
    requires start <= i < |chunks| && sent == ChunksSent(msg, chunks, start, i, policy, hasMarkdown)
    requires sent + parts == ChunksSent(msg, chunks, start, i + 1, policy, hasMarkdown)
    requires |sent| <= sends < |sent| + |parts|
    ensures var all := ChunksSent(msg, chunks, start, |chunks|, policy, hasMarkdown)
                       + AttachmentSends(msg, policy, hasMarkdown);
            before + sent + Prefix(parts, sends - |sent|) == before + Prefix(all, sends) && |all| > sends
  {
    hide ChunksSent, AttachmentSends;
    MoreSent(msg, chunks, start, i + 1, |chunks|, policy, hasMarkdown);
    var chunkMessages := ChunksSent(msg, chunks, start, |chunks|, policy, hasMarkdown);
    assert chunkMessages == (sent + parts) + chunkMessages[|sent + parts|..];
    assert Prefix(chunkMessages + AttachmentSends(msg, policy, hasMarkdown), sends) == sent + parts[..sends - |sent|];
  }

  /** An instance of a slip: the split at the full stop fails after the counters have started
      over, and the same stream takes another delta, which no longer fits. */
  method FailedSplitOverfills(hasMarkdown: string -> bool) returns (stream: ManagerOutboundStream)
    ensures stream.Valid() && stream.ledger.slipped && stream.Limit() == 4
    ensures |stream.streams| == 1 && !WithinLimit(stream.streams[0], 4)
  {
    hide Kept, Concat, Counted, WithinLimit, IsNaturalBreakPoint, SoftLimit, Append, Split;
    stream := new ManagerOutboundStream(Policy(4, TextMode, false, false), hasMarkdown, true);
    BreakAtPeriod();
    OnOneStream([], Delta("abc.", false));
    OnOneStream([Pushed(Delta("abc.", false))], Delta("def", false));
    var first := stream.Push(Delta("abc.", false), true, AtFinal, true, 0);
    assert stream.deltaText == "" && stream.streams == [[Pushed(Delta("abc.", false))]];
    var second := stream.Push(Delta("def", false), true, NoFault, true, 0);
    TwoDeltas("abc.", "def");
    assert stream.streams[0] == [Pushed(Delta("abc.", false)), Pushed(Delta("def", false))];
  }

  lemma OnOneStream(log: AdapterLog, e: StreamEvent)
    ensures Append([log], e) == [log + [Pushed(e)]]
    ensures [] + [Pushed(e)] == [Pushed(e)]
  {
  }

  lemma BreakAtPeriod()
    ensures IsNaturalBreakPoint("" + "abc.") && SoftLimit(4) == 3
  {
    assert "" + "abc." == "abc." && TrimRight("abc.") == "abc.";
  }

  lemma TwoDeltas(a: string, b: string)
    requires a != "" && b != "" && |a| + |b| > 4
    ensures !WithinLimit([Pushed(Delta(a, false)), Pushed(Delta(b, false))], 4)
  {
    var log := [Pushed(Delta(a, false)), Pushed(Delta(b, false))];
    var first := [Pushed(Delta(a, false))];
    assert log == first + [Pushed(Delta(b, false))] && first == [] + first;
    NothingCounted();
    CountedSnoc([], Pushed(Delta(a, false)));
    CountedSnoc(first, Pushed(Delta(b, false)));
    assert Counted(log) == [a, b];
    ConcatSnoc([], a);
    ConcatSnoc([a], b);
    assert [] + [a] == [a] && [a] + [b] == [a, b];
  }

  function AttachmentSends(msg: Message, policy: Policy, hasMarkdown: string -> bool): seq<Message> {
    if msg.attachments == [] then [] else Sent(AttachmentItem(msg), policy, hasMarkdown)
  }

  /** What is sent beside the stream for a split closing message. */
  function FinalSends(msg: Message, chunks: seq<string>, pushOk: bool,
                      policy: Policy, hasMarkdown: string -> bool): seq<Message>
    requires |chunks| >= 1
  {
    ChunksSent(msg, chunks, if pushOk then 1 else 0, |chunks|, policy, hasMarkdown)
    + AttachmentSends(msg, policy, hasMarkdown)
  }

  // ----- What a split closing message delivers -----

  /** The messages that carry actions, and those that carry attachments. */
  function WithActions(messages: seq<Message>): seq<Message> {
    if messages == [] then []
    else WithActions(messages[..|messages| - 1])
         + if messages[|messages| - 1].actions == [] then [] else [messages[|messages| - 1]]
  }

  function WithAttachments(messages: seq<Message>): seq<Message> {
    if messages == [] then []
    else WithAttachments(messages[..|messages| - 1])
         + if messages[|messages| - 1].attachments == [] then [] else [messages[|messages| - 1]]
  }

  lemma CarriersAppend(a: seq<Message>, b: seq<Message>)
    ensures WithActions(a + b) == WithActions(a) + WithActions(b)
    ensures WithAttachments(a + b) == WithAttachments(a) + WithAttachments(b)
    ensures Texts(a + b) == Texts(a) + Texts(b)
    ensures Squeeze(Concat(Texts(a + b))) == Squeeze(Concat(Texts(a))) + Squeeze(Concat(Texts(b)))
  {
    hide Concat, Squeeze, WithActions, WithAttachments;
    ActionsAppend(a, b);
    AttachmentsAppend(a, b);
    TextsAppend(a, b);
    assert Texts(a + b) == Texts(a) + Texts(b);
  }

  lemma {:induction false} ActionsAppend(a: seq<Message>, b: seq<Message>)
    ensures WithActions(a + b) == WithActions(a) + WithActions(b)
  {
    if b == [] {
      assert a + b == a;
    } else {
      assert (a + b)[..|a + b| - 1] == a + b[..|b| - 1];
      ActionsAppend(a, b[..|b| - 1]);
    }
  }

  lemma {:induction false} AttachmentsAppend(a: seq<Message>, b: seq<Message>)
    ensures WithAttachments(a + b) == WithAttachments(a) + WithAttachments(b)
  {
    if b == [] {
      assert a + b == a;
    } else {
      assert (a + b)[..|a + b| - 1] == a + b[..|b| - 1];
      AttachmentsAppend(a, b[..|b| - 1]);
    }
  }

  lemma OneCarrier(m: Message)
    ensures WithActions([m]) == if m.actions == [] then [] else [m]
    ensures WithAttachments([m]) == if m.attachments == [] then [] else [m]
    ensures WithActions([]) == [] == WithAttachments([])
  {
    assert [m][..0] == [];
  }

  /** A chunk that fits is sent as one message. */
  lemma ChunkIsSentWhole(item: Message, policy: Policy, hasMarkdown: string -> bool)
    requires policy.textChunkLimit > 0 && item.attachments == [] && item.parts == []
    requires !Blank(item.text) && TrimSpace(item.text) == item.text && |item.text| <= policy.textChunkLimit
    ensures Sent(item, policy, hasMarkdown) == [NormalizeMessage(item, hasMarkdown)]
  {
    hide TrimSpace, Pack, SplitBy;
    var base := NormalizeMessage(item, hasMarkdown);
    var chunks := Chunks(policy, base.format, base.text);
    assert chunks == [item.text];
    assert ChunkMessages(base, chunks, 1) == ChunkMessages(base, chunks, 0) + [ChunkMessage(base, chunks, 0)];
    assert ChunkMessage(base, chunks, 0) == base;
  }

  /** The chunks from `start` on: in order, one message each, the actions with the last one
      unless the attachments will carry them. */
  lemma {:induction false} ChunksSentShape(msg: Message, chunks: seq<string>, start: nat, n: nat,
                                           policy: Policy, hasMarkdown: string -> bool)
    requires start <= n <= |chunks| && policy.textChunkLimit > 0 && Fit(chunks, policy.textChunkLimit)
    requires chunks != [] ==> !Blank(chunks[|chunks| - 1])
    ensures IsChunkDelivery(ChunksSent(msg, chunks, start, n, policy, hasMarkdown), chunks[start..n],
                            if start < n == |chunks| && msg.attachments == [] then msg.actions else [],
                            policy.textChunkLimit)
  {
    hide Blank, TrimSpace, Sent, IsChunkDelivery, ChunkItem;
    if n == start {
      NothingDelivered(policy.textChunkLimit);
    } else {
      ChunksSentShape(msg, chunks, start, n - 1, policy, hasMarkdown);
      var earlier, chunk := ChunksSent(msg, chunks, start, n - 1, policy, hasMarkdown), chunks[n - 1];
      assert chunks[start..n] == chunks[start..n - 1] + [chunk];
      if Blank(chunk) {
        assert earlier + [] == earlier;
        BlankDelivered(earlier, chunks[start..n - 1], chunk, policy.textChunkLimit);
      } else {
        ItemSent(msg, chunks, n - 1, policy, hasMarkdown);
        ChunkDelivered(earlier, chunks[start..n - 1], chunk,
                       Sent(ChunkItem(msg, chunks, n - 1), policy, hasMarkdown)[0], policy.textChunkLimit);
      }
    }
  }

  /** The messages deliver the chunks, with at most one of them carrying the actions. */
  ghost predicate IsChunkDelivery(ms: seq<Message>, chunks: seq<string>, actions: seq<Action>, limit: int) {
    && WithAttachments(ms) == []
    && Squeeze(Concat(Texts(ms))) == Squeeze(Concat(chunks))
    && |WithActions(ms)| == (if actions != [] then 1 else 0)
    && (forall m :: m in WithActions(ms) ==> m.actions == actions)
    && (forall m :: m in ms ==> |m.text| <= limit)
  }

  lemma NothingDelivered(limit: int)
    ensures IsChunkDelivery([], [], [], limit)
  {
    assert Texts([]) == [];
  }

  lemma BlankDelivered(ms: seq<Message>, chunks: seq<string>, chunk: string, limit: int)
    requires IsChunkDelivery(ms, chunks, [], limit) && Blank(chunk)
    ensures IsChunkDelivery(ms, chunks + [chunk], [], limit)
  {
    hide Blank, Squeeze, Concat, WithActions, WithAttachments;
    SqueezeSnoc(chunks, chunk);
  }

  lemma ItemSent(msg: Message, chunks: seq<string>, i: nat, policy: Policy, hasMarkdown: string -> bool)
    requires i < |chunks| && policy.textChunkLimit > 0 && Fit(chunks, policy.textChunkLimit) && !Blank(chunks[i])
    ensures var sent := Sent(ChunkItem(msg, chunks, i), policy, hasMarkdown);
            && |sent| == 1 && sent == [sent[0]]
            && sent[0].text == TrimSpace(chunks[i]) && |sent[0].text| <= policy.textChunkLimit
            && sent[0].attachments == []
            && sent[0].actions == (if i == |chunks| - 1 && msg.attachments == [] then msg.actions else [])
  {
    hide Blank, TrimSpace, Sent;
    TrimmedNotBlank(chunks[i]);
    assert |TrimSpace(chunks[i])| <= |chunks[i]|;
    ChunkIsSentWhole(ChunkItem(msg, chunks, i), policy, hasMarkdown);
  }

  lemma ChunkDelivered(ms: seq<Message>, chunks: seq<string>, chunk: string, m: Message, limit: int)
    requires IsChunkDelivery(ms, chunks, [], limit)
    requires m.text == TrimSpace(chunk) && |m.text| <= limit && m.attachments == []
    ensures IsChunkDelivery(ms + [m], chunks + [chunk], m.actions, limit)
  {
    hide TrimSpace, Squeeze, Concat, WithActions, WithAttachments;
    CarriersAppend(ms, [m]);
    OneCarrier(m);
    OneText(m);
    SqueezeTrim(chunk);
    SqueezeSnoc(chunks, chunk);
  }

  /** The attachments of a closing message: all in one message, the actions in one. */
  lemma AttachmentSendsShape(msg: Message, policy: Policy, hasMarkdown: string -> bool)
    requires msg.attachments != []
    ensures var ms := AttachmentSends(msg, policy, hasMarkdown);
            && |WithAttachments(ms)| == 1
            && (forall m :: m in WithAttachments(ms) ==> m.attachments == msg.attachments)
            && |WithActions(ms)| == (if msg.actions == [] then 0 else 1)
            && (forall m :: m in WithActions(ms) ==> m.actions == msg.actions)
            && Squeeze(Concat(Texts(ms))) == ""
            && forall m :: m in ms ==> m.text == ""
  {
    hide WithActions, WithAttachments, Squeeze, Concat, Chunks, TrimSpace;
    BlankEmpty();
    OneCarrier(msg);
    var item := AttachmentItem(msg);
    var media := item.(format := Unset, text := "", parts := [], actions := []);
    var text := item.(attachments := []);
    assert Outgoings(item, policy, hasMarkdown) == Outgoing([media], if msg.actions == [] then [] else [text]);
    OneCarrier(media);
    OneText(media);
    if msg.actions == [] {
      assert [media] + [] == [media] && [] + [media] == [media];
    } else {
      OneCarrier(text);
      OneText(text);
      CarriersAppend([media], [text]);
      CarriersAppend([text], [media]);
    }
  }

  /** Exactly-once delivery of a split closing message, whether or not its first chunk could
      be pushed on the stream: its text arrives in order, in pieces within the limit, its
      actions in one message and its attachments in one message. */
  lemma FinalDeliversOnce(msg: Message, policy: Policy, hasMarkdown: string -> bool, pushOk: bool)
    requires FinalChunks(msg, policy, hasMarkdown) != []
    ensures var normalized, chunks := NormalizeMessage(msg, hasMarkdown), FinalChunks(msg, policy, hasMarkdown);
            var first := FirstFinal(normalized, chunks);
            var sends := FinalSends(normalized, chunks, pushOk, policy, hasMarkdown);
            && Squeeze(if pushOk then first.text else "") + Squeeze(Concat(Texts(sends)))
               == Squeeze(PlainText(normalized))
            && |first.text| <= policy.textChunkLimit
            && (forall m :: m in sends ==> |m.text| <= policy.textChunkLimit)
            && first.actions == [] && first.attachments == [] && CarriedOnce(sends, msg)
  {
    hide WithActions, WithAttachments, Squeeze, Concat, TrimSpace, Chunks, PlainText, ChunksSent, Sent, Blank;
    var normalized, chunks := NormalizeMessage(msg, hasMarkdown), FinalChunks(msg, policy, hasMarkdown);
    var text := TrimSpace(PlainText(normalized));
    var start := if pushOk then 1 else 0;
    BlankMeans(PlainText(normalized));
    TrimmedNotBlank(PlainText(normalized));
    ChunksOfVisible(policy, normalized.format, text);
    SqueezeTrim(PlainText(normalized));
    BlankEmpty();
    ChunksSentShape(normalized, chunks, start, |chunks|, policy, hasMarkdown);
    var sent := ChunksSent(normalized, chunks, start, |chunks|, policy, hasMarkdown);
    if msg.attachments == [] {
      assert sent + [] == sent;
    } else {
      AttachmentSendsShape(normalized, policy, hasMarkdown);
      CarriersAppend(sent, AttachmentSends(normalized, policy, hasMarkdown));
    }
    assert chunks[0..] == chunks && chunks[0..|chunks|] == chunks;
    if pushOk {
      assert chunks == [chunks[0]] + chunks[1..] && chunks[1..|chunks|] == chunks[1..];
      SqueezeCons(chunks[0], chunks[1..]);
    }
  }

  lemma SqueezeCons(piece: string, pieces: seq<string>)
    ensures Squeeze(Concat([piece] + pieces)) == Squeeze(piece) + Squeeze(Concat(pieces))
  {
    assert ([piece] + pieces)[1..] == pieces;
    SqueezeAppend(piece, Concat(pieces));
  }

  /** After a split the actions of the closing message go out only with attachments: they are
      delivered exactly when there are some, or there are no actions to deliver. */
  lemma FinalAfterSplitActions(msg: Message, policy: Policy, hasMarkdown: string -> bool)
    ensures var sends := AttachmentSends(msg.(reply := "", metadata := ""), policy, hasMarkdown);
            && (WithActions(sends) != [] <==> msg.actions != [] && msg.attachments != [])
            && (forall m :: m in WithActions(sends) ==> m.actions == msg.actions)
  {
    hide Sent, Squeeze, Concat, WithAttachments;
    if msg.attachments != [] {
      AttachmentSendsShape(msg.(reply := "", metadata := ""), policy, hasMarkdown);
    }
  }

  lemma SentFollows(msg: Message, policy: Policy, hasMarkdown: string -> bool)
    requires msg.parts == []
    ensures forall m :: m in Sent(msg, policy, hasMarkdown) ==>
              Follows(m, msg, NormalizeMessage(msg, hasMarkdown).format)
  {
    hide Chunks, Blank, TrimSpace, ChunkMessages;
    var normalized, inline := NormalizeMessage(msg, hasMarkdown), Inlines(policy, NormalizeMessage(msg, hasMarkdown));
    var base := normalized.(text := if inline then "" else normalized.text, attachments := []);
    var chunks := Chunks(policy, normalized.format, base.text);
    ChunkMessagesFollow(base, chunks, |chunks|);
  }

  lemma {:induction false} ChunkMessagesFollow(base: Message, chunks: seq<string>, n: nat)
    requires n <= |chunks| && base.parts == []
    ensures forall m :: m in ChunkMessages(base, chunks, n) ==> Follows(m, base, base.format)
  {
    hide Blank, TrimSpace;
    if n > 0 {
      ChunkMessagesFollow(base, chunks, n - 1);
    }
  }

  lemma {:induction false} ChunksSentFollow(msg: Message, chunks: seq<string>, start: nat, n: nat,
                                            policy: Policy, hasMarkdown: string -> bool)
    requires start <= n <= |chunks| && msg.format != Unset
    ensures forall m :: m in ChunksSent(msg, chunks, start, n, policy, hasMarkdown) ==> Follows(m, msg, msg.format)
  {
    hide Blank, TrimSpace, Sent;
    if n > start {
      ChunksSentFollow(msg, chunks, start, n - 1, policy, hasMarkdown);
      SentFollows(ChunkItem(msg, chunks, n - 1), policy, hasMarkdown);
    }
  }

  lemma FinalSendsFollow(msg: Message, chunks: seq<string>, pushOk: bool, policy: Policy, hasMarkdown: string -> bool)
    requires |chunks| >= 1 && msg.format != Unset
    ensures forall m :: m in FinalSends(msg, chunks, pushOk, policy, hasMarkdown) ==> Follows(m, msg, msg.format)
  {
    hide ChunksSent, Sent, WithActions, WithAttachments, Squeeze, Concat;
    ChunksSentFollow(msg, chunks, if pushOk then 1 else 0, |chunks|, policy, hasMarkdown);
    if msg.attachments != [] {
      SentFollows(AttachmentItem(msg), policy, hasMarkdown);
      AttachmentSendsShape(msg, policy, hasMarkdown);
    }
  }

  /** A message with something to split has a format. */
  lemma FormatIs(msg: Message, policy: Policy, hasMarkdown: string -> bool)
    ensures NormalizeMessage(msg, hasMarkdown).format == FormatOf(msg, hasMarkdown)
    ensures Long(msg, policy) ==> FormatOf(msg, hasMarkdown) != Unset
  {
    hide TrimSpace;
    if msg.parts == [] && Blank(msg.text) {
      assert PlainText(msg) == "";
      NothingTrimmed();
    }
  }

  lemma NothingTrimmed()
    ensures TrimSpace("") == ""
  {
  }

  /** A long message in its parts, whether or not the first one could be pushed. */
  lemma LongInParts(msg: Message, policy: Policy, hasMarkdown: string -> bool, pushOk: bool)
    requires FinalChunks(msg, policy, hasMarkdown) != []
    ensures var normalized, chunks := NormalizeMessage(msg, hasMarkdown), FinalChunks(msg, policy, hasMarkdown);
            InParts((if pushOk then [FirstFinal(normalized, chunks)] else [])
                    + FinalSends(normalized, chunks, pushOk, policy, hasMarkdown), msg, policy, hasMarkdown)
  {
    hide FinalChunks, FinalSends, InParts, Squeeze, Concat, PlainText, WithActions, WithAttachments, FormatOf, Long;
    LongIsSplit(msg, policy, hasMarkdown);
    FormatIs(msg, policy, hasMarkdown);
    var normalized, chunks := NormalizeMessage(msg, hasMarkdown), FinalChunks(msg, policy, hasMarkdown);
    var sends := FinalSends(normalized, chunks, pushOk, policy, hasMarkdown);
    FinalDeliversOnce(msg, policy, hasMarkdown, pushOk);
    FinalSendsFollow(normalized, chunks, pushOk, policy, hasMarkdown);
    PlainTextOf(msg, hasMarkdown);
    if pushOk {
      PartsWithFirst(FirstFinal(normalized, chunks), sends, msg, policy, hasMarkdown);
    } else {
      assert [] + sends == sends;
      PartsAlone(sends, msg, policy, hasMarkdown);
    }
  }

  lemma PartsAlone(sends: seq<Message>, msg: Message, policy: Policy, hasMarkdown: string -> bool)
    requires Squeeze("") + Squeeze(Concat(Texts(sends))) == Squeeze(PlainText(msg))
    requires forall m :: m in sends ==> |m.text| <= policy.textChunkLimit && Follows(m, msg, FormatOf(msg, hasMarkdown))
    requires CarriedOnce(sends, msg)
    ensures InParts(sends, msg, policy, hasMarkdown)
  {
    hide WithActions, WithAttachments, Concat, PlainText;
  }

  lemma PartsWithFirst(first: Message, sends: seq<Message>, msg: Message, policy: Policy, hasMarkdown: string -> bool)
    requires Squeeze(first.text) + Squeeze(Concat(Texts(sends))) == Squeeze(PlainText(msg))
    requires |first.text| <= policy.textChunkLimit && Follows(first, msg, FormatOf(msg, hasMarkdown))
    requires forall m :: m in sends ==>
               |m.text| <= policy.textChunkLimit && Follows(m, msg, FormatOf(msg, hasMarkdown))
    requires first.actions == [] && first.attachments == [] && CarriedOnce(sends, msg)
    ensures InParts([first] + sends, msg, policy, hasMarkdown)
  {
    hide WithActions, WithAttachments, Squeeze, Concat, PlainText;
    CarriersAppend([first], sends);
    OneCarrier(first);
    OneText(first);
    assert [] + WithActions(sends) == WithActions(sends) && [] + WithAttachments(sends) == WithAttachments(sends);
  }

  lemma {:induction false} NoTexts(ms: seq<Message>)
    requires forall m :: m in ms ==> m.text == ""
    ensures Concat(Texts(ms)) == ""
  {
    if ms != [] {
      NoTexts(ms[1..]);
      assert Texts(ms) == [ms[0].text] + Texts(ms[1..]);
    }
  }

  lemma AfterSplitInParts(msg: Message, policy: Policy, hasMarkdown: string -> bool)
    ensures WithoutText(AttachmentSends(msg.(reply := "", metadata := ""), policy, hasMarkdown), msg)
  {
    hide Sent, Squeeze, Concat, WithActions, WithAttachments;
    var rest := msg.(reply := "", metadata := "");
    NoTexts([]);
    OneCarrier(msg);
    if msg.attachments != [] {
      AttachmentSendsShape(rest, policy, hasMarkdown);
      NoTexts(AttachmentSends(rest, policy, hasMarkdown));
      SentFollows(AttachmentItem(rest), policy, hasMarkdown);
    }
  }

  lemma PlainTextOf(msg: Message, hasMarkdown: string -> bool)
    ensures PlainText(NormalizeMessage(msg, hasMarkdown)) == PlainText(msg)
  {
    hide Blank, Join, PartLines, TrimSpace;
  }

  /** A closing message is split exactly if its visible text is over the limit: a text that
      does not fit is never a single chunk. */
  lemma LongIsSplit(msg: Message, policy: Policy, hasMarkdown: string -> bool)
    ensures FinalChunks(msg, policy, hasMarkdown) != [] <==> Long(msg, policy)
  {
    hide PlainText, TrimSpace, Chunks, Renders, Fit;
    PlainTextOf(msg, hasMarkdown);
    if Long(msg, policy) {
      var normalized, text := NormalizeMessage(msg, hasMarkdown), TrimSpace(PlainText(msg));
      TrimmedTwice(PlainText(msg));
      ChunksRender(policy, normalized.format, text);
      var chunks := Chunks(policy, normalized.format, text);
      if |chunks| == 1 {
        OneChunk(text, chunks, policy.textChunkLimit);
      }
    }
  }

  lemma TrimmedTwice(s: string)
    ensures TrimSpace(TrimSpace(s)) == TrimSpace(s)
    ensures TrimSpace(s) != "" ==> !Blank(TrimSpace(s))
  {
    TrimSpaceIdempotent(TrimSpace(s));
  }

  /** A single chunk is the whole trimmed text. */
  lemma OneChunk(text: string, chunks: seq<string>, limit: int)
    requires Renders(text, chunks) && |chunks| == 1 && Fit(chunks, limit) && text == TrimSpace(text) != ""
    ensures |text| <= limit
  {
    hide TrimSpace, IsSpace;
    var gap := FirstGap(text, chunks);
    var end := gap + |chunks[0]|;
    assert chunks[1..] == [];
    assert AllSpace(text[end..]);
    SliceEnds(text, gap, end);
  }

  lemma SliceEnds(text: string, gap: nat, end: nat)
    requires gap <= end <= |text|
    ensures gap > 0 ==> text[..gap][0] == text[0]
    ensures end < |text| ==> text[end..][|text| - end - 1] == text[|text| - 1]
  {
  }
}
