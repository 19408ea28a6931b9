/** What the messages of tool calls show, over any sequence of events. */
module UiToolMessages {
  import opened Text
  import opened UiStream
  import opened UiStreamTheorems

  // ----- What a message shows -----

  datatype Latest = Latest(message: UIMessage) | Never

  /** The last message logged with an id. */
  function LastOf(log: seq<Logged>, id: nat): Latest {
    if log == [] then Never
    else
      var last := log[|log| - 1].message;
      if last.id == id then Latest(last) else LastOf(log[..|log| - 1], id)
  }

  /** How the message of a call follows from the one before it and the event, field by field.
      What the end of a call changes is up to the result. */
  predicate Follows(prev: UIMessage, e: Event, m: UIMessage, hooks: Hooks) {
    && m.kind == prev.kind == Tool && m.toolCallID == prev.toolCallID
    && m.progress == prev.progress + (if e.kind.ToolCallProgress? then [e.progress] else [])
    && if e.kind.ToolCallEnd? then m == hooks.apply(if e.input == Nil then prev else prev.(input := e.input), e.output)
       else
         && m.input == (if e.input == Nil then prev.input else e.input)
         && m.name == (if e.kind.ToolCallProgress? || Blank(e.toolName) then prev.name else TrimSpace(e.toolName))
         && m.running == (if e.kind.ToolCallStart? then Set(true)
                          else if e.kind.ToolApprovalRequest? then Set(false)
                          else prev.running)
         && (if e.kind.ToolApprovalRequest? then
               && m.approval.Approval? && m.approval.canApprove && m.approval.shortID == e.shortID
               && m.approval.approvalID == TrimSpace(e.approvalID)
               && m.approval.status == if Blank(e.status) then "pending" else TrimSpace(e.status)
             else m.approval == prev.approval)
         && m.output == prev.output && m.content == prev.content
         && m.attachments == prev.attachments && m.background == prev.background
  }

  /** What a call shows before its first event. */
  predicate IsNew(m: UIMessage, e: Event) {
    && m.kind == Tool && m.name == TrimSpace(e.toolName) && m.toolCallID == TrimSpace(e.toolCallID)
    && m.input == e.input && m.output == Nil && m.progress == [] && m.approval == NoApproval
    && m.running == (if e.kind.ToolCallStart? || e.kind.ToolCallProgress? then Set(true) else Unset)
    && m.content == "" && m.attachments == [] && m.background == Nil
  }

  /** A call is in flight from its first message on until it ends without running on in the
      background; an end that nothing went before does not put it in flight. */
  predicate InFlight(log: seq<Logged>, heard: seq<Event>, call: string, hooks: Hooks)
    requires forall j :: 0 <= j < |log| ==> log[j].at < |heard|
  {
    if log == [] then false
    else
      var last := log[|log| - 1];
      var before := InFlight(log[..|log| - 1], heard, call, hooks);
      if last.message.kind != Tool || last.message.toolCallID != call then before
      else if heard[last.at].kind.ToolCallEnd? then before && hooks.stillRunning(last.message)
      else true
  }

  /** The progress reported for an id. */
  function Reported(log: seq<Logged>, heard: seq<Event>, id: nat): seq<Any>
    requires forall j :: 0 <= j < |log| ==> log[j].at < |heard|
  {
    if log == [] then []
    else
      var last := log[|log| - 1];
      Reported(log[..|log| - 1], heard, id)
      + if last.message.id == id && heard[last.at].kind.ToolCallProgress? then [heard[last.at].progress] else []
  }

  /** A tool event's message follows from the last one with its id, or is the first of a new
      call; with a call id, it continues a call exactly if that call is in flight. */
  ghost predicate Shown(l: Logged, earlier: seq<Logged>, heard: seq<Event>, hooks: Hooks)
    requires l.at < |heard| && forall j :: 0 <= j < |earlier| ==> earlier[j].at < |heard|
  {
    var m, e := l.message, heard[l.at];
    && (m.kind == Tool <==> IsToolEvent(e.kind))
    && (m.kind == Tool ==>
          && (match LastOf(earlier, m.id)
              case Latest(prev) => Follows(prev, e, m, hooks)
              case Never => exists blank: UIMessage :: IsNew(blank, e) && Follows(blank, e, m, hooks))
          && (!Blank(e.toolCallID) ==>
                && m.toolCallID == TrimSpace(e.toolCallID)
                && (LastOf(earlier, m.id).Latest? <==> InFlight(earlier, heard, m.toolCallID, hooks))))
  }

  /** What the converter tracks is what has been logged. */
  ghost predicate Faithful(w: World, hooks: Hooks)
    requires InOrder(w)
  {
    && (forall k :: k in w.s.tools ==> LastOf(w.log, w.s.tools[k].id) == Latest(w.s.tools[k]))
    && (forall k :: k != "" ==> (k in w.s.tools <==> InFlight(w.log, w.heard, k, hooks)))
  }

  // ----- One more event -----

  lemma LastOfSnoc(log: seq<Logged>, l: Logged, id: nat)
    ensures LastOf(log + [l], id) == if l.message.id == id then Latest(l.message) else LastOf(log, id)
  {
    assert (log + [l])[..|log|] == log;
  }

  lemma {:induction false} NeverLogged(log: seq<Logged>, id: nat)
    requires forall j :: 0 <= j < |log| ==> log[j].message.id != id
    ensures LastOf(log, id) == Never
  {
    if log != [] {
      NeverLogged(log[..|log| - 1], id);
    }
  }

  lemma {:induction false} HeardMoreOf(log: seq<Logged>, heard: seq<Event>, e: Event, call: string, id: nat,
                                       hooks: Hooks)
    requires forall j :: 0 <= j < |log| ==> log[j].at < |heard|
    ensures InFlight(log, heard + [e], call, hooks) == InFlight(log, heard, call, hooks)
    ensures Reported(log, heard + [e], id) == Reported(log, heard, id)
  {
    if log != [] {
      HeardMoreOf(log[..|log| - 1], heard, e, call, id, hooks);
    }
  }

  lemma InFlightSnoc(log: seq<Logged>, heard: seq<Event>, l: Logged, e: Event, call: string, hooks: Hooks)
    requires (forall j :: 0 <= j < |log| ==> log[j].at < |heard|) && l.at == |heard|
    ensures InFlight(log + [l], heard + [e], call, hooks) ==
              if l.message.kind != Tool || l.message.toolCallID != call then InFlight(log, heard, call, hooks)
              else !e.kind.ToolCallEnd? || (InFlight(log, heard, call, hooks) && hooks.stillRunning(l.message))
  {
    HeardMoreOf(log, heard, e, call, 0, hooks);
    assert (log + [l])[..|log|] == log;
  }

  lemma AmendedFollows(prev: UIMessage, e: Event, hooks: Hooks)
    requires KeepsIdentity(hooks) && IsToolEvent(e.kind) && prev.kind == Tool
    ensures Follows(prev, e, Amended(prev, e, hooks), hooks)
  {
    hide TrimSpace;
    assert prev.progress + [] == prev.progress;
    var _ := hooks.apply(WithInput(prev, e), e.output);
  }

  lemma NewIsNew(id: nat, e: Event)
    ensures IsNew(NewTool(id, e), e) && NewTool(id, e).id == id
  {
    hide TrimSpace;
  }

  /** A tool event's message, and what it follows from. */
  lemma ToolEventShown(w: World, e: Event, visit: string, hooks: Hooks)
    requires Known(w) && InOrder(w) && KeepsIdentity(hooks) && Faithful(w, hooks) && IsToolEvent(e.kind)
    ensures var m := Amended(Current(w.s, e, visit), e, hooks);
            Shown(Logged(|w.heard|, m), w.log, w.heard + [e], hooks)
  {
    hide TrimSpace, KeepsIdentity, Amended, Follows, IsNew, InFlight, Current, Step, NewTool;
    var prev := Current(w.s, e, visit);
    var m := Amended(prev, e, hooks);
    CallMessageKnown(w, e, visit, hooks);
    CallKinds(w);
    CurrentID(w.s, e, visit);
    AmendedID(prev, e, hooks);
    AmendedFollows(prev, e, hooks);
    HeardMoreOf(w.log, w.heard, e, m.toolCallID, 0, hooks);
    CurrentIs(w.s, e, visit);
    if Find(w.s, e, visit).NoKey? {
      NewIsNew(w.s.nextID, e);
      LoggedBelow(w);
      NeverLogged(w.log, w.s.nextID);
    }
  }

  lemma CallKinds(w: World)
    requires Known(w)
    ensures forall k :: k in w.s.tools ==> w.s.tools[k].toolCallID == k && k != "" && w.s.tools[k].kind == Tool
  {
    assert forall k :: k in w.s.tools ==> CallKnown(w, k);
  }

  lemma CurrentIs(s: Snapshot, e: Event, visit: string)
    ensures match Find(s, e, visit)
            case Key(k) => k in s.tools && Current(s, e, visit) == s.tools[k]
            case NoKey => Current(s, e, visit) == NewTool(s.nextID, e) && Current(s, e, visit).kind == Tool
    ensures !Blank(e.toolCallID) ==> (Find(s, e, visit).Key? <==> TrimSpace(e.toolCallID) in s.tools)
  {
    hide TrimSpace;
  }

  lemma LoggedBelow(w: World)
    requires Known(w)
    ensures forall j :: 0 <= j < |w.log| ==> w.log[j].message.id < w.s.nextID
  {
    hide OpenBlocksKnown, CallKnown;
  }

  /** The calls tracked after a tool event, and their messages. */
  lemma ToolEventFaithful(w: World, e: Event, visit: string, hooks: Hooks)
    requires Known(w) && InOrder(w) && KeepsIdentity(hooks) && Faithful(w, hooks) && IsToolEvent(e.kind)
    ensures var m, tools := Amended(Current(w.s, e, visit), e, hooks), Step(w.s, e, visit, hooks).next.tools;
            var log, heard := w.log + [Logged(|w.heard|, m)], w.heard + [e];
            && (forall k :: k in tools ==> LastOf(log, tools[k].id) == Latest(tools[k]))
            && (forall k :: k != "" ==> (k in tools <==> InFlight(log, heard, k, hooks)))
  {
    hide TrimSpace, KeepsIdentity, Amended, InFlight, Current, Tracked, Find, HasIdentity, LastOf, CallKnown, Births;
    var m := Amended(Current(w.s, e, visit), e, hooks);
    var tools, l := Step(w.s, e, visit, hooks).next.tools, Logged(|w.heard|, m);
    assert tools == Tracked(w.s, e, visit, m, hooks);
    StepKnown(w, e, visit, hooks);
    CallMessageKnown(w, e, visit, hooks);
    CallKinds(w);
    AmendedID(Current(w.s, e, visit), e, hooks);
    TrackedIs(w.s, e, visit, m, hooks);
    forall k | k in tools
      ensures LastOf(w.log + [l], tools[k].id) == Latest(tools[k])
    {
      LastOfSnoc(w.log, l, tools[k].id);
      OtherCall(Grown(w, e, visit, hooks), k, m);
    }
    forall k | k != ""
      ensures k in tools <==> InFlight(w.log + [l], w.heard + [e], k, hooks)
    {
      InFlightSnoc(w.log, w.heard, l, e, k, hooks);
    }
  }

  lemma StepIs(s: Snapshot, e: Event, visit: string, hooks: Hooks)
    ensures if IsToolEvent(e.kind) then Step(s, e, visit, hooks).messages == [Amended(Current(s, e, visit), e, hooks)]
            else Step(s, e, visit, hooks).next.tools == s.tools
  {
    hide TrimSpace, Amended, Current, Find, Tracked;
  }

  /** Calls that are tracked under other ids have other message ids. */
  lemma OtherCall(w: World, k: string, m: UIMessage)
    requires k in w.s.tools && CallKnown(w, k) && HasIdentity(w, m.id, Identity(Tool, m.toolCallID))
    ensures k != m.toolCallID ==> w.s.tools[k].id != m.id
  {
  }

  /** The same for an event that is none of a tool. */
  lemma OtherEventFaithful(w: World, i: Input, hooks: Hooks)
    requires Known(w) && InOrder(w) && KeepsIdentity(hooks) && Faithful(w, hooks) && !IsToolEvent(i.event.kind)
    requires InOrder(Hear(w, i, hooks))
    ensures Faithful(Hear(w, i, hooks), hooks)
    ensures var o := Step(w.s, i.event, i.visit, hooks); forall m :: m in o.messages ==> m.kind != Tool
  {
    hide KeepsIdentity, InFlight, LastOf, Births, Step, CallKnown, HasIdentity, InOrder;
    var e, w', o := i.event, Hear(w, i, hooks), Step(w.s, i.event, i.visit, hooks);
    StepIs(w.s, e, i.visit, hooks);
    StepKnown(w, e, i.visit, hooks);
    StepTells(w, e, i.visit, hooks);
    if o.messages == [] {
      assert w'.log == w.log;
    } else {
      assert w'.log == w.log + [Logged(|w.heard|, o.messages[0])];
    }
    forall k | k in w'.s.tools
      ensures LastOf(w'.log, w'.s.tools[k].id) == Latest(w'.s.tools[k])
    {
      if o.messages != [] {
        LastOfSnoc(w.log, Logged(|w.heard|, o.messages[0]), w.s.tools[k].id);
        NoCall(Grown(w, e, i.visit, hooks), k, o.messages[0]);
      }
    }
    AtMost(w);
    AtMost(w');
    forall k | k != ""
      ensures k in w'.s.tools <==> InFlight(w'.log, w'.heard, k, hooks)
    {
      HeardMoreOf(w.log, w.heard, e, k, 0, hooks);
      if o.messages != [] {
        InFlightSnoc(w.log, w.heard, Logged(|w.heard|, o.messages[0]), e, k, hooks);
      }
    }
  }

  lemma AtMost(w: World)
    requires InOrder(w)
    ensures forall j :: 0 <= j < |w.log| ==> w.log[j].at < |w.heard|
  {
  }

  lemma NoCall(w: World, k: string, m: UIMessage)
    requires k in w.s.tools && CallKnown(w, k) && HasIdentity(w, m.id, IdentityOf(m)) && m.kind != Tool
    ensures w.s.tools[k].id != m.id
  {
  }

  // ----- Every run -----

  /** What holds of all messages logged so far. */
  ghost predicate AllShown(w: World, hooks: Hooks)
    requires InOrder(w)
  {
    forall j :: 0 <= j < |w.log| ==> Shown(w.log[j], w.log[..j], w.heard, hooks)
  }

  lemma StillShown(l: Logged, earlier: seq<Logged>, heard: seq<Event>, e: Event, hooks: Hooks)
    requires l.at < |heard| && forall j :: 0 <= j < |earlier| ==> earlier[j].at < |heard|
    requires Shown(l, earlier, heard, hooks)
    ensures Shown(l, earlier, heard + [e], hooks)
  {
    hide InFlight, LastOf, Follows, IsNew, TrimSpace;
    HeardMoreOf(earlier, heard, e, l.message.toolCallID, 0, hooks);
  }

  lemma HearShown(w: World, i: Input, hooks: Hooks)
    requires Known(w) && InOrder(w) && KeepsIdentity(hooks) && Faithful(w, hooks) && AllShown(w, hooks)
    requires InOrder(Hear(w, i, hooks))
    ensures Faithful(Hear(w, i, hooks), hooks) && AllShown(Hear(w, i, hooks), hooks)
  {
    hide KeepsIdentity, InFlight, LastOf, Births, Step, CallKnown, HasIdentity, Shown, Known, Amended, Current;
    var e, w', o := i.event, Hear(w, i, hooks), Step(w.s, i.event, i.visit, hooks);
    var l := Logged(|w.heard|, Amended(Current(w.s, e, i.visit), e, hooks));
    StepIs(w.s, e, i.visit, hooks);
    StepKnown(w, e, i.visit, hooks);
    if IsToolEvent(e.kind) {
      ToolEventShown(w, e, i.visit, hooks);
      ToolEventFaithful(w, e, i.visit, hooks);
      assert w'.log == w.log + [l];
    } else {
      OtherEventFaithful(w, i, hooks);
    }
    forall j | 0 <= j < |w'.log|
      ensures Shown(w'.log[j], w'.log[..j], w'.heard, hooks)
    {
      if j < |w.log| {
        assert w'.log[..j] == w.log[..j] && w'.log[j] == w.log[j];
        StillShown(w.log[j], w.log[..j], w.heard, e, hooks);
      } else {
        assert w'.log[..j] == w.log;
        if !IsToolEvent(e.kind) {
          NoToolShown(w'.log[j], w.log, w'.heard, hooks);
        }
      }
    }
  }

  lemma NoToolShown(l: Logged, earlier: seq<Logged>, heard: seq<Event>, hooks: Hooks)
    requires l.at < |heard| && forall j :: 0 <= j < |earlier| ==> earlier[j].at < |heard|
    requires l.message.kind != Tool && !IsToolEvent(heard[l.at].kind)
    ensures Shown(l, earlier, heard, hooks)
  {
  }

  lemma {:induction false} RunShown(inputs: seq<Input>, hooks: Hooks)
    requires KeepsIdentity(hooks)
    ensures var w := Run(inputs, hooks); InOrder(w) && Faithful(w, hooks) && AllShown(w, hooks)
  {
    hide KeepsIdentity, Known, Hear, Faithful, AllShown, InOrder;
    RunBlocks(inputs, hooks, TextBlock);
    if inputs == [] {
      StartShown(hooks);
    } else {
      RunKnown(inputs[..|inputs| - 1], hooks);
      RunShown(inputs[..|inputs| - 1], hooks);
      HearShown(Run(inputs[..|inputs| - 1], hooks), inputs[|inputs| - 1], hooks);
    }
  }

  lemma StartShown(hooks: Hooks)
    ensures var w := World(EMPTY, [], [], []); InOrder(w) && Faithful(w, hooks) && AllShown(w, hooks)
  {
    assert EMPTY.tools == map[];
  }

  /** Over any run: every message of a tool call follows, field by field, from its event and the
      last message with its id, or is the first of a new call; an event with a call id
      continues a call exactly if that call is in flight. */
  lemma ToolMessagesShowEvents(inputs: seq<Input>, hooks: Hooks)
    requires KeepsIdentity(hooks)
    ensures var w := Run(inputs, hooks);
            && (forall j :: 0 <= j < |w.log| ==> w.log[j].at < |w.heard|)
            && (forall j :: 0 <= j < |w.log| ==> Shown(w.log[j], w.log[..j], w.heard, hooks))
  {
    hide KeepsIdentity, Run, Shown, Faithful;
    RunShown(inputs, hooks);
  }

  /** What the log says about an id up to its last message is what it says about it at all. */
  lemma {:induction false} ReportedTo(log: seq<Logged>, heard: seq<Event>, id: nat) returns (i: nat)
    requires forall j :: 0 <= j < |log| ==> log[j].at < |heard|
    requires LastOf(log, id).Latest?
    ensures i < |log| && log[i].message == LastOf(log, id).message && log[i].message.id == id
    ensures Reported(log[..i + 1], heard, id) == Reported(log, heard, id)
  {
    var last := |log| - 1;
    if log[last].message.id == id {
      i := last;
      assert log[..i + 1] == log;
    } else {
      i := ReportedTo(log[..last], heard, id);
      assert log[..last][..i + 1] == log[..i + 1];
    }
  }

  lemma {:induction false} NothingReported(log: seq<Logged>, heard: seq<Event>, id: nat)
    requires forall j :: 0 <= j < |log| ==> log[j].at < |heard|
    requires LastOf(log, id).Never?
    ensures Reported(log, heard, id) == []
  {
    if log != [] {
      NothingReported(log[..|log| - 1], heard, id);
    }
  }

  /** Over any run, the progress a message of a tool call shows is exactly what the progress
      events of that call have reported so far, in order. */
  lemma {:induction false} ProgressIsReported(inputs: seq<Input>, hooks: Hooks, j: nat)
    requires KeepsIdentity(hooks) && j < |Run(inputs, hooks).log| && Run(inputs, hooks).log[j].message.kind == Tool
    requires forall k :: 0 <= k < |Run(inputs, hooks).log| ==> Run(inputs, hooks).log[k].at < |Run(inputs, hooks).heard|
    ensures var w := Run(inputs, hooks);
            w.log[j].message.progress == Reported(w.log[..j + 1], w.heard, w.log[j].message.id)
    decreases j
  {
    hide KeepsIdentity, Run, Shown, Reported, LastOf;
    var w := Run(inputs, hooks);
    var earlier := w.log[..j];
    ToolMessagesShowEvents(inputs, hooks);
    assert w.log[..j + 1] == earlier + [w.log[j]];
    if LastOf(earlier, w.log[j].message.id).Latest? {
      var i := ReportedTo(earlier, w.heard, w.log[j].message.id);
      assert earlier[..i + 1] == w.log[..i + 1];
      LatestIsTool(w.log[j], earlier, w.heard, hooks);
      ProgressIsReported(inputs, hooks, i);
    }
    OneMoreReport(w.log[j], earlier, w.heard, hooks);
  }

  lemma LatestIsTool(l: Logged, earlier: seq<Logged>, heard: seq<Event>, hooks: Hooks)
    requires l.at < |heard| && forall j :: 0 <= j < |earlier| ==> earlier[j].at < |heard|
    requires Shown(l, earlier, heard, hooks) && l.message.kind == Tool && LastOf(earlier, l.message.id).Latest?
    ensures LastOf(earlier, l.message.id).message.kind == Tool
  {
    hide InFlight, LastOf, TrimSpace;
  }

  lemma OneMoreReport(l: Logged, earlier: seq<Logged>, heard: seq<Event>, hooks: Hooks)
    requires l.at < |heard| && forall j :: 0 <= j < |earlier| ==> earlier[j].at < |heard|
    requires Shown(l, earlier, heard, hooks) && l.message.kind == Tool
    requires match LastOf(earlier, l.message.id)
             case Latest(prev) => prev.progress == Reported(earlier, heard, l.message.id)
             case Never => true
    ensures l.message.progress == Reported(earlier + [l], heard, l.message.id)
  {
    hide InFlight, TrimSpace, LastOf;
    assert (earlier + [l])[..|earlier|] == earlier;
    if LastOf(earlier, l.message.id).Never? {
      NothingReported(earlier, heard, l.message.id);
    }
  }

  lemma {:induction false} ReportedGrows(log: seq<Logged>, heard: seq<Event>, id: nat, i: nat)
    requires i <= |log| && forall j :: 0 <= j < |log| ==> log[j].at < |heard|
    ensures Reported(log[..i], heard, id) <= Reported(log, heard, id)
  {
    if i == |log| {
      assert log[..i] == log;
    } else {
      ReportedGrows(log[..|log| - 1], heard, id, i);
      assert log[..|log| - 1][..i] == log[..i];
    }
  }

  /** Later messages of a tool call repeat all progress of the earlier ones, and messages of
      other types show none. */
  lemma ProgressAccumulates(inputs: seq<Input>, hooks: Hooks, i: nat, j: nat)
    requires KeepsIdentity(hooks) && i < j < |Run(inputs, hooks).log|
    ensures var log := Run(inputs, hooks).log;
            && (log[i].message.id == log[j].message.id ==> log[i].message.progress <= log[j].message.progress)
            && (log[j].message.kind != Tool ==> log[j].message.progress == [])
  {
    hide KeepsIdentity, Run, InFlight, TrimSpace, Reported, Shown, IdentityOf;
    var w := Run(inputs, hooks);
    ToolMessagesShowEvents(inputs, hooks);
    EveryEventIsShown(inputs, hooks);
    IdentitiesNeverChange(inputs, hooks);
    SameKind(w.log[i].message, w.log[j].message);
    if w.log[i].message.id == w.log[j].message.id && w.log[i].message.kind == Tool {
      ProgressIsReported(inputs, hooks, i);
      ProgressIsReported(inputs, hooks, j);
      ReportedGrows(w.log[..j + 1], w.heard, w.log[i].message.id, i + 1);
      assert w.log[..j + 1][..i + 1] == w.log[..i + 1];
    }
  }

  lemma SameKind(m: UIMessage, m': UIMessage)
    ensures IdentityOf(m) == IdentityOf(m') ==> m.kind == m'.kind
  {
  }

  // ----- Which events are shown -----

  /** The events that yield a message. */
  predicate Tells(e: Event) {
    || e.kind.TextDelta? || e.kind.ReasoningDelta? || IsToolEvent(e.kind)
    || (e.kind.AttachmentDelta? && e.attachments != [])
  }

  /** What a message that is none of a tool shows. */
  predicate PlainShown(m: UIMessage, e: Event) {
    match e.kind
    case TextDelta => m == UIMessage(m.id, TextBlock, m.content, "", Nil, Nil, "", Unset, [], NoApproval, [], Nil)
    case ReasoningDelta => m == UIMessage(m.id, Reasoning, m.content, "", Nil, Nil, "", Unset, [], NoApproval, [], Nil)
    case AttachmentDelta =>
      m == UIMessage(m.id, Attachments, "", "", Nil, Nil, "", Unset, [], NoApproval, e.attachments, Nil)
    case _ => IsToolEvent(e.kind) && m.kind == Tool
  }

  /** One message for every event that yields one, in order. */
  ghost predicate OneEach(log: seq<Logged>, heard: seq<Event>) {
    && (forall j :: 0 <= j < |log| ==> log[j].at < |heard| && Tells(heard[log[j].at]))
    && (forall j :: 0 <= j < |log| ==> log[j].at < |heard| && PlainShown(log[j].message, heard[log[j].at]))
    && (forall t :: 0 <= t < |heard| && Tells(heard[t]) ==> exists j :: 0 <= j < |log| && log[j].at == t)
  }

  lemma StepTells(w: World, e: Event, visit: string, hooks: Hooks)
    requires Known(w) && KeepsIdentity(hooks)
    ensures var ms := Step(w.s, e, visit, hooks).messages;
            if Tells(e) then |ms| == 1 && PlainShown(ms[0], e) else ms == []
  {
    hide TrimSpace, KeepsIdentity, Amended, Current, Find, Tracked;
    StepKnown(w, e, visit, hooks);
    if IsToolEvent(e.kind) {
      CallMessageKnown(w, e, visit, hooks);
    }
  }

  lemma HearOneEach(w: World, i: Input, hooks: Hooks)
    requires Known(w) && KeepsIdentity(hooks) && OneEach(w.log, w.heard)
    ensures var w' := Hear(w, i, hooks); OneEach(w'.log, w'.heard)
  {
    hide Step, Births, Known, KeepsIdentity, PlainShown, Tells;
    var e, w', ms := i.event, Hear(w, i, hooks), Step(w.s, i.event, i.visit, hooks).messages;
    StepTells(w, e, i.visit, hooks);
    assert w'.log == w.log + if Tells(e) then [Logged(|w.heard|, ms[0])] else [];
    forall t | 0 <= t < |w'.heard| && Tells(w'.heard[t])
      ensures exists j :: 0 <= j < |w'.log| && w'.log[j].at == t
    {
      if t < |w.heard| {
        assert w'.heard[t] == w.heard[t];
        var j :| 0 <= j < |w.log| && w.log[j].at == t;
        assert w'.log[j] == w.log[j];
      } else {
        assert w'.log[|w.log|].at == t;
      }
    }
  }

  /** Over any run there is exactly one message for every delta, tool event and event with
      attachments, in the order of the events, and none for any other. */
  lemma {:induction false} EveryEventIsShown(inputs: seq<Input>, hooks: Hooks)
    requires KeepsIdentity(hooks)
    ensures var w := Run(inputs, hooks); OneEach(w.log, w.heard) && InOrder(w)
  {
    hide KeepsIdentity, Known, Hear, OneEach, InOrder;
    RunBlocks(inputs, hooks, TextBlock);
    if inputs == [] {
      assert OneEach([], []) by { NoEvents(); }
    } else {
      RunKnown(inputs[..|inputs| - 1], hooks);
      EveryEventIsShown(inputs[..|inputs| - 1], hooks);
      HearOneEach(Run(inputs[..|inputs| - 1], hooks), inputs[|inputs| - 1], hooks);
    }
  }

  lemma NoEvents()
    ensures OneEach([], [])
  {
  }
}
