/** The converter that turns a stream of low-level events into complete messages for the web
    interface. Open text blocks and tool calls are objects that events change in place. */
module UiStream {
  import opened Text

  /** A value the converter passes on without looking at it; Nil if there is none. */
  datatype Any = Nil | Data(text: string)

  datatype MessageKind = TextBlock | Reasoning | Tool | Attachments

  datatype Flag = Unset | Set(value: bool)

  datatype Approval = NoApproval | Approval(approvalID: string, shortID: int, status: string, canApprove: bool)

  datatype UIMessage = UIMessage(
    id: nat, kind: MessageKind, content: string, name: string, input: Any, output: Any, toolCallID: string,
    running: Flag, progress: seq<Any>, approval: Approval, attachments: seq<Any>, background: Any)

  /** The event types, after trimming and lower-casing; every other type is Unknown. */
  datatype EventKind =
    | TextStart | TextDelta | TextEnd | ReasoningStart | ReasoningDelta | ReasoningEnd
    | ToolCallStart | ToolCallProgress | ToolApprovalRequest | ToolCallEnd | AttachmentDelta | Unknown

  datatype Event = Event(
    kind: EventKind, delta: string, toolName: string, toolCallID: string, input: Any, output: Any, progress: Any,
    attachments: seq<Any>, approvalID: string, shortID: int, status: string)

  /** How a tool result is entered into a message, and whether its tool then still runs in the
      background. */
  datatype Hooks = Hooks(apply: (UIMessage, Any) -> UIMessage, stillRunning: UIMessage -> bool)

  /** Entering a result leaves alone what identifies a message, and its progress. */
  ghost predicate KeepsIdentity(hooks: Hooks) {
    forall m, output ::
      var m' := hooks.apply(m, output);
      m'.id == m.id && m'.kind == m.kind && m'.toolCallID == m.toolCallID && m'.progress == m.progress
  }

  // ----- The converter as a value -----

  datatype Block = Closed | Open(id: nat, content: string)

  datatype Snapshot = Snapshot(nextID: nat, text: Block, reasoning: Block, tools: map<string, UIMessage>)

  datatype Key = Key(key: string) | NoKey

  predicate NameMatches(s: Snapshot, e: Event, k: string) {
    k in s.tools && TrimSpace(s.tools[k].name) == TrimSpace(e.toolName)
  }

  /** The tool call an event belongs to. An event without a call id goes to some call of the
      same name, the one under `visit`. */
  function Find(s: Snapshot, e: Event, visit: string): Key {
    var id := TrimSpace(e.toolCallID);
    if id != "" then (if id in s.tools then Key(id) else NoKey)
    else if NameMatches(s, e, visit) then Key(visit)
    else NoKey
  }

  /** `visit` is a call of that name if there is one. */
  ghost predicate Visits(s: Snapshot, e: Event, visit: string) {
    TrimSpace(e.toolCallID) == "" && (exists k :: NameMatches(s, e, k)) ==> NameMatches(s, e, visit)
  }

  function Plain(id: nat, kind: MessageKind, content: string, attachments: seq<Any>): UIMessage {
    UIMessage(id, kind, content, "", Nil, Nil, "", Unset, [], NoApproval, attachments, Nil)
  }

  function NewTool(id: nat, e: Event): UIMessage {
    UIMessage(id, Tool, "", TrimSpace(e.toolName), e.input, Nil, TrimSpace(e.toolCallID),
      if e.kind.ToolCallStart? || e.kind.ToolCallProgress? then Set(true) else Unset, [], NoApproval, [], Nil)
  }

  function WithInput(m: UIMessage, e: Event): UIMessage {
    if e.input == Nil then m else m.(input := e.input)
  }

  function WithName(m: UIMessage, e: Event): UIMessage {
    if TrimSpace(e.toolName) == "" then m else m.(name := TrimSpace(e.toolName))
  }

  function StatusOf(e: Event): string {
    if TrimSpace(e.status) == "" then "pending" else TrimSpace(e.status)
  }

  /** What an event makes of the message of its tool call. */
  function Amended(m: UIMessage, e: Event, hooks: Hooks): UIMessage {
    match e.kind
    case ToolCallStart => WithInput(WithName(m, e), e).(running := Set(true))
    case ToolCallProgress => WithInput(m.(progress := m.progress + [e.progress]), e)
    case ToolApprovalRequest =>
      WithName(WithInput(m, e), e).(running := Set(false),
                                    approval := Approval(TrimSpace(e.approvalID), e.shortID, StatusOf(e), true))
    case _ => hooks.apply(WithInput(m, e), e.output)
  }

  predicate IsToolEvent(kind: EventKind) {
    kind.ToolCallStart? || kind.ToolCallProgress? || kind.ToolApprovalRequest? || kind.ToolCallEnd?
  }

  /** The message of the call an event belongs to, which may be new. */
  function Current(s: Snapshot, e: Event, visit: string): UIMessage {
    match Find(s, e, visit)
    case Key(k) => if k in s.tools then s.tools[k] else NewTool(s.nextID, e)
    case NoKey => NewTool(s.nextID, e)
  }

  /** The calls after an event: an amended call is tracked under its id if it has one. A call
      that has ended is tracked only as long as it runs in the background, and an end never
      starts tracking. */
  function Tracked(s: Snapshot, e: Event, visit: string, m: UIMessage, hooks: Hooks): map<string, UIMessage> {
    match Find(s, e, visit)
    case Key(k) => if e.kind.ToolCallEnd? && !hooks.stillRunning(m) then s.tools - {k} else s.tools[k := m]
    case NoKey => if e.kind.ToolCallEnd? || m.toolCallID == "" then s.tools else s.tools[m.toolCallID := m]
  }

  datatype Outcome = Outcome(next: Snapshot, messages: seq<UIMessage>)

  function ToolStep(s: Snapshot, e: Event, visit: string, hooks: Hooks): Outcome {
    var m := Amended(Current(s, e, visit), e, hooks);
    Outcome(
      s.(nextID := if Find(s, e, visit).NoKey? then s.nextID + 1 else s.nextID,
         text := if e.kind.ToolCallStart? then Closed else s.text,
         tools := Tracked(s, e, visit, m, hooks)),
      [m])
  }

  /** A block to add to: the open one or a new one. */
  function Opened(b: Block, nextID: nat): Block {
    if b.Closed? then Open(nextID, "") else b
  }

  function Extended(b: Block, nextID: nat, delta: string): (b': Block)
    ensures b'.Open?
  {
    var o := Opened(b, nextID);
    Open(o.id, o.content + delta)
  }

  function After(b: Block, nextID: nat): nat {
    if b.Closed? then nextID + 1 else nextID
  }

  /** What an event does to the converter, and which messages it yields. */
  function Step(s: Snapshot, e: Event, visit: string, hooks: Hooks): Outcome {
    match e.kind
    case TextStart => Outcome(s.(text := Open(s.nextID, ""), nextID := s.nextID + 1), [])
    case TextDelta =>
      var b := Extended(s.text, s.nextID, e.delta);
      Outcome(s.(text := b, nextID := After(s.text, s.nextID)), [Plain(b.id, TextBlock, b.content, [])])
    case TextEnd => Outcome(s.(text := Closed), [])
    case ReasoningStart => Outcome(s.(reasoning := Open(s.nextID, ""), nextID := s.nextID + 1), [])
    case ReasoningDelta =>
      var b := Extended(s.reasoning, s.nextID, e.delta);
      Outcome(s.(reasoning := b, nextID := After(s.reasoning, s.nextID)), [Plain(b.id, Reasoning, b.content, [])])
    case ReasoningEnd => Outcome(s.(reasoning := Closed), [])
    case AttachmentDelta =>
      if e.attachments == [] then Outcome(s, [])
      else Outcome(s.(nextID := s.nextID + 1), [Plain(s.nextID, Attachments, "", e.attachments)])
    case Unknown => Outcome(s, [])
    case _ => ToolStep(s, e, visit, hooks)
  }

  // ----- The converter as it runs -----

  class TextState {
    const id: nat
    var content: string

    constructor (id: nat)
      ensures this.id == id && content == ""
    {
      this.id, content := id, "";
    }
  }

  class ToolState {
    var message: UIMessage

    constructor (message: UIMessage)
      ensures this.message == message
    {
      this.message := message;
    }

    /** What the kinds of tool events change in the message, field by field. */
    method Amend(e: Event, hooks: Hooks)
      requires IsToolEvent(e.kind)
      requires TrimSpace(e.toolCallID) == "" || message.toolCallID == TrimSpace(e.toolCallID)
      modifies this
      ensures message == Amended(old(message), e, hooks)
    {
      hide TrimSpace;
      if e.kind.ToolCallStart? {
        if TrimSpace(e.toolName) != "" {
          message := message.(name := TrimSpace(e.toolName));
        }
        if e.input != Nil {
          message := message.(input := e.input);
        }
        if TrimSpace(e.toolCallID) != "" {
          message := message.(toolCallID := TrimSpace(e.toolCallID));
        }
        message := message.(running := Set(true));
      } else if e.kind.ToolCallProgress? {
        message := message.(progress := message.progress + [e.progress]);
        if e.input != Nil {
          message := message.(input := e.input);
        }
      } else if e.kind.ToolApprovalRequest? {
        if e.input != Nil {
          message := message.(input := e.input);
        }
        if TrimSpace(e.toolName) != "" {
          message := message.(name := TrimSpace(e.toolName));
        }
        if TrimSpace(e.toolCallID) != "" {
          message := message.(toolCallID := TrimSpace(e.toolCallID));
        }
        var status := TrimSpace(e.status);
        if status == "" {
          status := "pending";
        }
        message := message.(running := Set(false),
                            approval := Approval(TrimSpace(e.approvalID), e.shortID, status, true));
      } else {
        if e.input != Nil {
          message := message.(input := e.input);
        }
        message := hooks.apply(message, e.output);
      }
    }
  }

  class UIMessageStreamConverter {
    const hooks: Hooks
    var nextID: nat
    var text: TextState?
    var reasoning: TextState?
    var tools: map<string, ToolState>
    ghost var Repr: set<object>

    constructor (hooks: Hooks)
      ensures Valid() && fresh(Repr) && this.hooks == hooks
      ensures Contents() == EMPTY
    {
      this.hooks, nextID, text, reasoning, tools := hooks, 0, null, null, map[];
      Repr := {this};
    }

    /** Calls are tracked under their own ids, so no two entries share an object. */
    ghost predicate Valid()
      reads this, Repr
      ensures Valid() ==> this in Repr
    {
      && this in Repr
      && (text != null ==> text in Repr && text != reasoning)
      && (reasoning != null ==> reasoning in Repr)
      && (forall k :: k in tools ==> tools[k] in Repr)
      && (forall k :: k in tools ==> tools[k].message.toolCallID == k && k != "")
    }

    ghost function BlockOf(b: TextState?): Block
      reads b
    {
      if b == null then Closed else Open(b.id, b.content)
    }

    ghost function Messages(): map<string, UIMessage>
      reads this, Repr
      requires Valid()
    {
      map k | k in tools :: tools[k].message
    }

    ghost function Contents(): Snapshot
      reads this, Repr
      requires Valid()
    {
      Snapshot(nextID, BlockOf(text), BlockOf(reasoning), Messages())
    }

    method NextMessageID() returns (id: nat)
      modifies this`nextID
      ensures id == old(nextID) && nextID == id + 1
    {
      id := nextID;
      nextID := nextID + 1;
    }

    method FindToolState(e: Event) returns (state: ToolState?, ghost visit: string)
      requires Valid()
      ensures Visits(Contents(), e, visit)
      ensures var id := TrimSpace(e.toolCallID);
              if id != "" then (if id in tools then state == tools[id] else state == null)
              else if state == null then forall k :: !NameMatches(Contents(), e, k)
              else exists k :: NameMatches(Contents(), e, k) && state == tools[k]
      ensures match Find(Contents(), e, visit)
              case NoKey => state == null
              case Key(k) => k in tools && state == tools[k]
    {
      hide TrimSpace;
      visit := "";
      var trimmed := TrimSpace(e.toolCallID);
      if trimmed != "" {
        if trimmed in tools {
          return tools[trimmed], "";
        }
        return null, "";
      }
      var normalizedName := TrimSpace(e.toolName);
      var rest := tools.Keys;
      while rest != {}
        invariant rest <= tools.Keys
        invariant forall k :: NameMatches(Contents(), e, k) ==> k in rest
        decreases |rest|
      {
        var k :| k in rest;
        if TrimSpace(tools[k].message.name) == normalizedName {
          return tools[k], k;
        }
        rest := rest - {k};
      }
      return null, "";
    }

    /** A state is the one tracked under its id, or no part of the converter yet. */
    ghost predicate Placed(state: ToolState)
      reads this, state
    {
      if state.message.toolCallID in tools then state == tools[state.message.toolCallID] else state !in Repr
    }

    /** The state of the call an event belongs to, made if the call is new. */
    method FindOrMake(e: Event) returns (state: ToolState, ghost visit: string)
      requires Valid() && IsToolEvent(e.kind)
      modifies this`nextID
      ensures Valid() && Placed(state) && (state in Repr || fresh(state))
      ensures var s := old(Contents());
              && Visits(s, e, visit)
              && state.message == Current(s, e, visit)
              && Contents() == s.(nextID := if Find(s, e, visit).NoKey? then s.nextID + 1 else s.nextID)
    {
      hide TrimSpace, Visits, Find;
      var found;
      found, visit := FindToolState(e);
      ghost var s := Contents();
      CurrentID(s, e, visit);
      if found == null {
        var id := NextMessageID();
        state := new ToolState(NewTool(id, e));
      } else {
        state := found;
      }
    }

    /** The message of a call is amended in place; no other call notices. */
    method AmendState(state: ToolState, e: Event)
      requires Valid() && IsToolEvent(e.kind) && KeepsIdentity(hooks) && Placed(state)
      requires TrimSpace(e.toolCallID) == "" || state.message.toolCallID == TrimSpace(e.toolCallID)
      modifies state
      ensures Valid() && Placed(state)
      ensures state.message == Amended(old(state.message), e, hooks)
      ensures var s, m := old(Contents()), state.message;
              Contents() == s.(tools := if m.toolCallID in s.tools then s.tools[m.toolCallID := m] else s.tools)
    {
      hide TrimSpace, KeepsIdentity, Amended;
      ghost var s := Contents();
      AmendedID(state.message, e, hooks);
      state.Amend(e, hooks);
      ghost var m := state.message;
      assert Messages() == if m.toolCallID in s.tools then s.tools[m.toolCallID := m] else s.tools;
    }

    /** A call is tracked under its id if it has one. */
    method Track(state: ToolState)
      requires Valid() && Placed(state)
      modifies this`tools, this`Repr
      ensures Valid() && Repr <= old(Repr) + {state}
      ensures var s, m := old(Contents()), state.message;
              Contents() == s.(tools := if m.toolCallID == "" then s.tools else s.tools[m.toolCallID := m])
    {
      ghost var s := Contents();
      if state.message.toolCallID != "" {
        tools := tools[state.message.toolCallID := state];
        Repr := Repr + {state};
        assert Messages() == s.tools[state.message.toolCallID := state.message];
      }
    }

    /** A call that has ended is tracked no longer unless it runs on in the background. */
    method Untrack(m: UIMessage)
      requires Valid()
      modifies this`tools
      ensures Valid()
      ensures var s := old(Contents());
              Contents() == s.(tools :=
                if m.toolCallID != "" && !hooks.stillRunning(m) then s.tools - {m.toolCallID} else s.tools)
    {
      ghost var s := Contents();
      if m.toolCallID != "" && !hooks.stillRunning(m) {
        tools := tools - {m.toolCallID};
        assert Messages() == s.tools - {m.toolCallID};
      }
    }

    method CloseText()
      requires Valid()
      modifies this`text
      ensures Valid() && Contents() == old(Contents()).(text := Closed)
    {
      text := null;
    }

    method CloseReasoning()
      requires Valid()
      modifies this`reasoning
      ensures Valid() && Contents() == old(Contents()).(reasoning := Closed)
    {
      reasoning := null;
    }

    /** The four kinds of tool events: the call is found or made, its message amended, and what
        is tracked brought up to date. */
    method HandleToolEvent(e: Event) returns (messages: seq<UIMessage>, ghost visit: string)
      requires Valid() && IsToolEvent(e.kind) && KeepsIdentity(hooks)
      modifies Repr
      ensures Valid() && fresh(Repr - old(Repr))
      ensures Visits(old(Contents()), e, visit)
      ensures var o := ToolStep(old(Contents()), e, visit, hooks); Contents() == o.next && messages == o.messages
    {
      hide *;
      ghost var s := Contents();
      Keyed();
      var state;
      state, visit := FindOrMake(e);
      CurrentID(s, e, visit);
      AmendedID(state.message, e, hooks);
      TrackedIs(s, e, visit, Amended(state.message, e, hooks), hooks);
      AmendState(state, e);
      if e.kind.ToolCallEnd? {
        Untrack(state.message);
      } else {
        Track(state);
      }
      if e.kind.ToolCallStart? {
        CloseText();
      }
      messages := [state.message];
      ToolStepIs(s, e, visit, hooks);
    }

    lemma Keyed()
      requires Valid()
      ensures this in Repr
      ensures forall k :: k in Contents().tools ==> Contents().tools[k].toolCallID == k && k != ""
    {
    }

    method StartText()
      requires Valid()
      modifies this`text, this`nextID, this`Repr
      ensures Valid() && fresh(Repr - old(Repr)) && old(Repr) <= Repr
      ensures Contents() == old(Contents()).(text := Open(old(nextID), ""), nextID := old(nextID) + 1)
    {
      ghost var before := Messages();
      var id := NextMessageID();
      text := new TextState(id);
      Repr := Repr + {text};
      assert Messages() == before;
    }

    method StartReasoning()
      requires Valid()
      modifies this`reasoning, this`nextID, this`Repr
      ensures Valid() && fresh(Repr - old(Repr)) && old(Repr) <= Repr
      ensures Contents() == old(Contents()).(reasoning := Open(old(nextID), ""), nextID := old(nextID) + 1)
    {
      ghost var before := Messages();
      var id := NextMessageID();
      reasoning := new TextState(id);
      Repr := Repr + {reasoning};
      assert Messages() == before;
    }

    method AddText(delta: string) returns (m: UIMessage)
      requires Valid()
      modifies Repr
      ensures Valid() && fresh(Repr - old(Repr))
      ensures var s := old(Contents()); var b := Extended(s.text, s.nextID, delta);
              && Contents() == s.(text := b, nextID := After(s.text, s.nextID))
              && m == Plain(b.id, TextBlock, b.content, [])
    {
      if text == null {
        StartText();
      }
      ghost var before := Messages();
      text.content := text.content + delta;
      assert Messages() == before;
      m := Plain(text.id, TextBlock, text.content, []);
    }

    method AddReasoning(delta: string) returns (m: UIMessage)
      requires Valid()
      modifies Repr
      ensures Valid() && fresh(Repr - old(Repr))
      ensures var s := old(Contents()); var b := Extended(s.reasoning, s.nextID, delta);
              && Contents() == s.(reasoning := b, nextID := After(s.reasoning, s.nextID))
              && m == Plain(b.id, Reasoning, b.content, [])
    {
      if reasoning == null {
        StartReasoning();
      }
      ghost var before := Messages();
      reasoning.content := reasoning.content + delta;
      assert Messages() == before;
      m := Plain(reasoning.id, Reasoning, reasoning.content, []);
    }

    /** HandleEvent: zero or one complete messages. */
    method HandleEvent(e: Event) returns (messages: seq<UIMessage>, ghost visit: string)
      requires Valid() && KeepsIdentity(hooks)
      modifies Repr
      ensures Valid() && fresh(Repr - old(Repr))
      ensures IsToolEvent(e.kind) ==> Visits(old(Contents()), e, visit)
      ensures var o := Step(old(Contents()), e, visit, hooks); Contents() == o.next && messages == o.messages
    {
      hide KeepsIdentity, Visits, ToolStep, Extended;
      messages, visit := [], "";
      match e.kind {
        case TextStart =>
          StartText();
        case TextDelta =>
          var m := AddText(e.delta);
          messages := [m];
        case TextEnd =>
          CloseText();
        case ReasoningStart =>
          StartReasoning();
        case ReasoningDelta =>
          var m := AddReasoning(e.delta);
          messages := [m];
        case ReasoningEnd =>
          CloseReasoning();
        case AttachmentDelta =>
          if |e.attachments| == 0 {
            return;
          }
          var id := NextMessageID();
          messages := [Plain(id, Attachments, "", e.attachments)];
        case Unknown =>
        case _ =>
          messages, visit := HandleToolEvent(e);
      }
    }
  }

  /** An event finds the call with its own id; a new call takes it. */
  lemma CurrentID(s: Snapshot, e: Event, visit: string)
    requires forall k :: k in s.tools ==> s.tools[k].toolCallID == k && k != ""
    ensures var m := Current(s, e, visit);
            && (TrimSpace(e.toolCallID) != "" ==> m.toolCallID == TrimSpace(e.toolCallID))
            && (Find(s, e, visit).Key? ==> m.toolCallID == Find(s, e, visit).key && m.toolCallID in s.tools)
            && (Find(s, e, visit).NoKey? ==> m.toolCallID !in s.tools)
  {
    hide TrimSpace;
  }

  lemma AmendedID(m: UIMessage, e: Event, hooks: Hooks)
    requires KeepsIdentity(hooks)
    ensures var m' := Amended(m, e, hooks); m'.id == m.id && m'.kind == m.kind && m'.toolCallID == m.toolCallID
  {
    hide TrimSpace;
    var _ := hooks.apply(WithInput(m, e), e.output);
  }

  /** What is tracked after an event, by the id of the call. */
  lemma TrackedIs(s: Snapshot, e: Event, visit: string, m: UIMessage, hooks: Hooks)
    requires m.toolCallID == Current(s, e, visit).toolCallID
    requires forall k :: k in s.tools ==> s.tools[k].toolCallID == k && k != ""
    ensures var amended := if m.toolCallID in s.tools then s.tools[m.toolCallID := m] else s.tools;
            Tracked(s, e, visit, m, hooks) ==
              if m.toolCallID == "" then amended
              else if !e.kind.ToolCallEnd? then amended[m.toolCallID := m]
              else if hooks.stillRunning(m) then amended
              else amended - {m.toolCallID}
  {
    hide TrimSpace;
    CurrentID(s, e, visit);
  }

  lemma ToolStepIs(s: Snapshot, e: Event, visit: string, hooks: Hooks)
    ensures var m := Amended(Current(s, e, visit), e, hooks);
            ToolStep(s, e, visit, hooks) == Outcome(
              Snapshot(if Find(s, e, visit).NoKey? then s.nextID + 1 else s.nextID,
                       if e.kind.ToolCallStart? then Closed else s.text,
                       s.reasoning, Tracked(s, e, visit, m, hooks)),
              [m])
  {
  }

  const EMPTY := Snapshot(0, Closed, Closed, map[])
}
