/** What holds of the messages the converter yields over any sequence of events. */
module UiStreamTheorems {
  import opened Text
  import opened UiStream

  /** An event, and the call that an event without a call id is taken to belong to. */
  datatype Input = Input(event: Event, visit: string)

  /** A message and the number of the event that yielded it. */
  datatype Logged = Logged(at: nat, message: UIMessage)

  datatype World = World(s: Snapshot, heard: seq<Event>, log: seq<Logged>, born: seq<Identity>)

  /** What an id stands for. */
  datatype Identity = Identity(kind: MessageKind, toolCallID: string)

  function IdentityOf(m: UIMessage): Identity {
    Identity(m.kind, m.toolCallID)
  }

  /** The identity that an event gives to a new id, if it takes one. */
  function Births(s: Snapshot, e: Event, visit: string): seq<Identity> {
    match e.kind
    case TextStart => [Identity(TextBlock, "")]
    case TextDelta => if s.text.Closed? then [Identity(TextBlock, "")] else []
    case ReasoningStart => [Identity(Reasoning, "")]
    case ReasoningDelta => if s.reasoning.Closed? then [Identity(Reasoning, "")] else []
    case AttachmentDelta => if e.attachments == [] then [] else [Identity(Attachments, "")]
    case _ => if IsToolEvent(e.kind) && Find(s, e, visit).NoKey? then [Identity(Tool, TrimSpace(e.toolCallID))] else []
  }

  function Logs(at: nat, messages: seq<UIMessage>): seq<Logged> {
    seq(|messages|, i requires 0 <= i < |messages| => Logged(at, messages[i]))
  }

  function Hear(w: World, i: Input, hooks: Hooks): World {
    var o := Step(w.s, i.event, i.visit, hooks);
    World(o.next, w.heard + [i.event], w.log + Logs(|w.heard|, o.messages), w.born + Births(w.s, i.event, i.visit))
  }

  function Run(inputs: seq<Input>, hooks: Hooks): World {
    if inputs == [] then World(EMPTY, [], [], [])
    else Hear(Run(inputs[..|inputs| - 1], hooks), inputs[|inputs| - 1], hooks)
  }

  // ----- Identities -----

  predicate HasIdentity(w: World, id: nat, identity: Identity) {
    id < |w.born| && w.born[id] == identity
  }

  predicate OpenBlocksKnown(w: World) {
    && (w.s.text.Open? ==> HasIdentity(w, w.s.text.id, Identity(TextBlock, "")))
    && (w.s.reasoning.Open? ==> HasIdentity(w, w.s.reasoning.id, Identity(Reasoning, "")))
  }

  predicate CallKnown(w: World, k: string)
    requires k in w.s.tools
  {
    var m := w.s.tools[k];
    k != "" && m.toolCallID == k && m.kind == Tool && HasIdentity(w, m.id, Identity(Tool, k))
  }

  /** Every id in use stands for what it was taken for. */
  predicate Known(w: World) {
    && |w.born| == w.s.nextID
    && OpenBlocksKnown(w)
    && (forall k :: k in w.s.tools ==> CallKnown(w, k))
    && (forall j :: 0 <= j < |w.log| ==> HasIdentity(w, w.log[j].message.id, IdentityOf(w.log[j].message)))
  }

  function Grown(w: World, e: Event, visit: string, hooks: Hooks): World {
    w.(s := Step(w.s, e, visit, hooks).next, born := w.born + Births(w.s, e, visit))
  }

  lemma Remembered(w: World, w': World, k: string)
    requires k in w.s.tools && k in w'.s.tools && w.s.tools[k] == w'.s.tools[k] && w.born <= w'.born && CallKnown(w, k)
    ensures CallKnown(w', k)
  {
  }

  /** The message of a tool event stands for its call. */
  lemma CallMessageKnown(w: World, e: Event, visit: string, hooks: Hooks)
    requires Known(w) && KeepsIdentity(hooks) && IsToolEvent(e.kind)
    ensures var m := Amended(Current(w.s, e, visit), e, hooks);
            && HasIdentity(Grown(w, e, visit, hooks), m.id, Identity(Tool, m.toolCallID)) && m.kind == Tool
            && m.id == Current(w.s, e, visit).id
            && (Find(w.s, e, visit).Key? ==> Find(w.s, e, visit).key == m.toolCallID && m.toolCallID in w.s.tools)
            && (Find(w.s, e, visit).NoKey? ==> m.toolCallID !in w.s.tools)
  {
    hide TrimSpace, KeepsIdentity, Amended, Step;
    assert forall k :: k in w.s.tools ==> CallKnown(w, k);
    CurrentID(w.s, e, visit);
    AmendedID(Current(w.s, e, visit), e, hooks);
  }

  lemma CallsStayKnown(w: World, e: Event, visit: string, hooks: Hooks)
    requires Known(w) && KeepsIdentity(hooks) && IsToolEvent(e.kind)
    ensures var w' := Grown(w, e, visit, hooks); forall k :: k in w'.s.tools ==> CallKnown(w', k)
  {
    hide TrimSpace, KeepsIdentity, Amended, Current, Find, HasIdentity;
    var w' := Grown(w, e, visit, hooks);
    var m := Amended(Current(w.s, e, visit), e, hooks);
    CallMessageKnown(w, e, visit, hooks);
    forall k | k in w'.s.tools
      ensures CallKnown(w', k)
    {
      assert k in w.s.tools ==> CallKnown(w, k);
      if k in w.s.tools && w'.s.tools[k] == w.s.tools[k] {
        Remembered(w, w', k);
      } else {
        assert k == m.toolCallID && w'.s.tools[k] == m;
      }
    }
  }

  /** The same of the outcome of one event. */
  lemma StepKnown(w: World, e: Event, visit: string, hooks: Hooks)
    requires Known(w) && KeepsIdentity(hooks)
    ensures var w', o := Grown(w, e, visit, hooks), Step(w.s, e, visit, hooks);
            && |w'.born| == w'.s.nextID && OpenBlocksKnown(w')
            && (forall k :: k in w'.s.tools ==> CallKnown(w', k))
            && |o.messages| <= 1
            && (o.messages != [] ==> HasIdentity(w', o.messages[0].id, IdentityOf(o.messages[0])))
  {
    hide TrimSpace, KeepsIdentity, Amended, CallKnown, Find, Tracked, Current;
    var w' := Grown(w, e, visit, hooks);
    if IsToolEvent(e.kind) {
      CallMessageKnown(w, e, visit, hooks);
      CallsStayKnown(w, e, visit, hooks);
      assert w'.s == ToolStep(w.s, e, visit, hooks).next;
    } else {
      forall k | k in w'.s.tools
        ensures CallKnown(w', k)
      {
        assert CallKnown(w, k);
        Remembered(w, w', k);
      }
    }
  }

  lemma HearKnown(w: World, i: Input, hooks: Hooks)
    requires Known(w) && KeepsIdentity(hooks)
    ensures Known(Hear(w, i, hooks))
  {
    hide KeepsIdentity, Step, Births, OpenBlocksKnown, CallKnown;
    var w', o := Hear(w, i, hooks), Step(w.s, i.event, i.visit, hooks);
    var g := Grown(w, i.event, i.visit, hooks);
    StepKnown(w, i.event, i.visit, hooks);
    SameKnowledge(g, w');
    forall j | 0 <= j < |w'.log|
      ensures HasIdentity(w', w'.log[j].message.id, IdentityOf(w'.log[j].message))
    {
      if j < |w.log| {
        assert w'.log[j] == w.log[j];
      } else {
        assert w'.log[j].message == o.messages[0];
      }
    }
  }

  lemma SameKnowledge(g: World, w': World)
    requires g.s == w'.s && g.born == w'.born
    ensures OpenBlocksKnown(g) ==> OpenBlocksKnown(w')
    ensures forall k :: k in g.s.tools && CallKnown(g, k) ==> CallKnown(w', k)
  {
  }

  lemma {:induction false} RunKnown(inputs: seq<Input>, hooks: Hooks)
    requires KeepsIdentity(hooks)
    ensures Known(Run(inputs, hooks))
  {
    hide KeepsIdentity, Known, Hear;
    if inputs == [] {
      StartKnown();
    } else {
      RunKnown(inputs[..|inputs| - 1], hooks);
      HearKnown(Run(inputs[..|inputs| - 1], hooks), inputs[|inputs| - 1], hooks);
    }
  }

  lemma StartKnown()
    ensures Known(World(EMPTY, [], [], []))
  {
    assert EMPTY.tools == map[];
  }

  /** Over any run an id never changes the type of its message nor its tool call id, all ids are
      below the next one to be given, and every tracked call is tracked under its own id. */
  lemma IdentitiesNeverChange(inputs: seq<Input>, hooks: Hooks)
    requires KeepsIdentity(hooks)
    ensures var w := Run(inputs, hooks);
            && (forall i, j :: 0 <= i < |w.log| && 0 <= j < |w.log| && w.log[i].message.id == w.log[j].message.id ==>
                  IdentityOf(w.log[i].message) == IdentityOf(w.log[j].message))
            && (forall j :: 0 <= j < |w.log| ==> w.log[j].message.id < w.s.nextID)
            && (forall k :: k in w.s.tools ==> w.s.tools[k].toolCallID == k && k != "")
            && (forall k, k' :: k in w.s.tools && k' in w.s.tools && w.s.tools[k].id == w.s.tools[k'].id ==> k == k')
  {
    hide KeepsIdentity, Run, IdentityOf, OpenBlocksKnown;
    var w := Run(inputs, hooks);
    RunKnown(inputs, hooks);
    forall k | k in w.s.tools
      ensures w.s.tools[k].toolCallID == k && k != "" && HasIdentity(w, w.s.tools[k].id, Identity(Tool, k))
    {
      assert CallKnown(w, k);
    }
  }

  // ----- Text and reasoning blocks -----

  /** Messages of these types come from blocks. */
  predicate IsBlock(kind: MessageKind) {
    kind.TextBlock? || kind.Reasoning?
  }

  /** The events that end the open block of a type, or start a new one. A tool call ends the
      open text, but not the open reasoning. */
  predicate Breaks(e: EventKind, kind: MessageKind) {
    if kind.TextBlock? then e.TextStart? || e.TextEnd? || e.ToolCallStart? else e.ReasoningStart? || e.ReasoningEnd?
  }

  predicate Adds(e: EventKind, kind: MessageKind) {
    if kind.TextBlock? then e.TextDelta? else e.ReasoningDelta?
  }

  /** All that has been said since the last break. */
  function Since(events: seq<Event>, kind: MessageKind): string {
    if events == [] then ""
    else
      var init, last := events[..|events| - 1], events[|events| - 1];
      if Breaks(last.kind, kind) then ""
      else if Adds(last.kind, kind) then Since(init, kind) + last.delta
      else Since(init, kind)
  }

  /** There is no break among the events from one on and before another. */
  predicate Unbroken(events: seq<Event>, from: nat, to: nat, kind: MessageKind)
    requires to <= |events|
  {
    forall t :: from <= t < to ==> !Breaks(events[t].kind, kind)
  }

  function BlockFor(s: Snapshot, kind: MessageKind): Block {
    if kind.TextBlock? then s.text else s.reasoning
  }

  function Said(b: Block): string {
    if b.Open? then b.content else ""
  }

  /** What an event does to the block of a type, and to what is said in it. */
  lemma StepBlock(s: Snapshot, e: Event, visit: string, hooks: Hooks, kind: MessageKind)
    requires IsBlock(kind)
    requires IsToolEvent(e.kind) ==> Amended(Current(s, e, visit), e, hooks).kind == Tool
    ensures var o, b := Step(s, e, visit, hooks), BlockFor(s, kind);
            var b' := BlockFor(o.next, kind);
            if Breaks(e.kind, kind) then
              (b' == Closed || b' == Open(s.nextID, "")) && NoneOf(o.messages, kind)
            else if Adds(e.kind, kind) then
              b' == Extended(b, s.nextID, e.delta) && o.messages == [Plain(b'.id, kind, b'.content, [])]
            else b' == b && NoneOf(o.messages, kind)
  {
    hide TrimSpace, Amended, Find, Tracked, Current;
  }

  predicate NoneOf(messages: seq<UIMessage>, kind: MessageKind) {
    forall j :: 0 <= j < |messages| ==> messages[j].kind != kind
  }

  predicate SaysSince(l: Logged, heard: seq<Event>, kind: MessageKind) {
    l.message.kind == kind ==> l.at < |heard| && l.message.content == Since(heard[..l.at + 1], kind)
  }

  /** A logged message belongs to the block that is open now exactly if nothing has broken it. */
  predicate StillOpen(w: World, l: Logged, kind: MessageKind)
    requires l.at < |w.heard|
  {
    l.message.kind == kind ==>
      (BlockFor(w.s, kind).Open? && BlockFor(w.s, kind).id == l.message.id
       <==> Unbroken(w.heard, l.at + 1, |w.heard|, kind))
  }

  predicate SameBlock(i: Logged, j: Logged, heard: seq<Event>, kind: MessageKind)
    requires j.at < |heard|
  {
    i.message.kind == kind && j.message.kind == kind ==>
      (i.message.id == j.message.id <==> Unbroken(heard, i.at + 1, j.at + 1, kind))
  }

  predicate InOrder(w: World) {
    && (forall j :: 0 <= j < |w.log| ==> w.log[j].at < |w.heard|)
    && (forall i, j :: 0 <= i < j < |w.log| ==> w.log[i].at < w.log[j].at)
  }

  predicate Blocks(w: World, kind: MessageKind)
    requires InOrder(w)
  {
    && Said(BlockFor(w.s, kind)) == Since(w.heard, kind)
    && (forall j :: 0 <= j < |w.log| ==> SaysSince(w.log[j], w.heard, kind))
    && (forall j :: 0 <= j < |w.log| ==> StillOpen(w, w.log[j], kind))
    && (forall i, j :: 0 <= i < j < |w.log| ==> SameBlock(w.log[i], w.log[j], w.heard, kind))
  }

  lemma HearInOrder(w: World, i: Input, hooks: Hooks)
    requires InOrder(w) && |Step(w.s, i.event, i.visit, hooks).messages| <= 1
    ensures InOrder(Hear(w, i, hooks))
  {
    hide Step;
    var w' := Hear(w, i, hooks);
    forall j | 0 <= j < |w'.log|
      ensures w'.log[j].at == if j < |w.log| then w.log[j].at else |w.heard|
    {
    }
  }

  lemma SinceSnoc(heard: seq<Event>, e: Event, kind: MessageKind)
    ensures Since(heard + [e], kind) ==
              if Breaks(e.kind, kind) then ""
              else if Adds(e.kind, kind) then Since(heard, kind) + e.delta
              else Since(heard, kind)
  {
    assert (heard + [e])[..|heard + [e]| - 1] == heard;
  }

  lemma UnbrokenSnoc(heard: seq<Event>, e: Event, from: nat, kind: MessageKind)
    requires from <= |heard|
    ensures Unbroken(heard + [e], from, |heard| + 1, kind)
            <==> Unbroken(heard, from, |heard|, kind) && !Breaks(e.kind, kind)
    ensures forall to :: 0 <= to <= |heard| ==>
              (Unbroken(heard + [e], from, to, kind) <==> Unbroken(heard, from, to, kind))
  {
    var more := heard + [e];
    assert forall t :: 0 <= t < |heard| ==> more[t] == heard[t];
    assert more[|heard|] == e;
  }

  /** The effect of an event on the block of a type: StepBlock, in a world. */
  ghost predicate BlockStep(w: World, w': World, e: Event, messages: seq<UIMessage>, kind: MessageKind) {
    var b, b' := BlockFor(w.s, kind), BlockFor(w'.s, kind);
    && w'.heard == w.heard + [e] && w'.log == w.log + Logs(|w.heard|, messages) && |messages| <= 1
    && if Breaks(e.kind, kind) then (b' == Closed || b' == Open(w.s.nextID, "")) && NoneOf(messages, kind)
       else if Adds(e.kind, kind) then
         b' == Extended(b, w.s.nextID, e.delta) && messages == [Plain(b'.id, kind, b'.content, [])]
       else b' == b && NoneOf(messages, kind)
  }

  lemma HearBlockStep(w: World, i: Input, hooks: Hooks, kind: MessageKind)
    requires Known(w) && KeepsIdentity(hooks) && IsBlock(kind)
    ensures BlockStep(w, Hear(w, i, hooks), i.event, Step(w.s, i.event, i.visit, hooks).messages, kind)
  {
    hide KeepsIdentity, Known, Step, Births, Amended, Current, BlockFor, NoneOf, Extended;
    if IsToolEvent(i.event.kind) {
      CallMessageKnown(w, i.event, i.visit, hooks);
    }
    StepKnown(w, i.event, i.visit, hooks);
    StepBlock(w.s, i.event, i.visit, hooks, kind);
  }

  lemma SaysSinceStays(l: Logged, heard: seq<Event>, e: Event, kind: MessageKind)
    requires l.at < |heard| && SaysSince(l, heard, kind)
    ensures SaysSince(l, heard + [e], kind)
  {
    hide Since;
    assert (heard + [e])[..l.at + 1] == heard[..l.at + 1];
  }

  lemma StillOpenStays(w: World, w': World, e: Event, messages: seq<UIMessage>, l: Logged, kind: MessageKind)
    requires BlockStep(w, w', e, messages, kind)
    requires l.at < |w.heard| && l.message.id < w.s.nextID && StillOpen(w, l, kind)
    ensures StillOpen(w', l, kind)
  {
    hide Unbroken, BlockFor, Breaks, Adds, Logs, NoneOf;
    UnbrokenSnoc(w.heard, e, l.at + 1, kind);
  }

  lemma SameBlockStays(i: Logged, j: Logged, heard: seq<Event>, e: Event, kind: MessageKind)
    requires i.at < j.at < |heard| && SameBlock(i, j, heard, kind)
    ensures SameBlock(i, j, heard + [e], kind)
  {
    hide Unbroken;
    UnbrokenSnoc(heard, e, i.at + 1, kind);
  }

  /** The message that an event yields. */
  lemma NewMessage(w: World, w': World, e: Event, messages: seq<UIMessage>, kind: MessageKind)
    requires BlockStep(w, w', e, messages, kind) && messages != []
    requires Said(BlockFor(w.s, kind)) == Since(w.heard, kind)
    ensures var l := Logged(|w.heard|, messages[0]);
            SaysSince(l, w'.heard, kind) && StillOpen(w', l, kind)
    ensures messages[0].kind == kind ==> BlockFor(w'.s, kind).Open? && BlockFor(w'.s, kind).id == messages[0].id
  {
    hide Since, BlockFor, Logs, Breaks, Adds;
    SinceSnoc(w.heard, e, kind);
    assert w'.heard[..|w.heard| + 1] == w'.heard;
  }

  lemma SaidSince(w: World, w': World, e: Event, messages: seq<UIMessage>, kind: MessageKind)
    requires BlockStep(w, w', e, messages, kind)
    requires Said(BlockFor(w.s, kind)) == Since(w.heard, kind)
    ensures Said(BlockFor(w'.s, kind)) == Since(w'.heard, kind)
  {
    hide Since, BlockFor, Logs, Breaks, Adds, NoneOf;
    SinceSnoc(w.heard, e, kind);
  }

  lemma LogEntry(w: World, w': World, e: Event, messages: seq<UIMessage>, kind: MessageKind, j: nat)
    requires BlockStep(w, w', e, messages, kind) && j < |w'.log|
    ensures if j < |w.log| then w'.log[j] == w.log[j]
            else messages != [] && w'.log[j] == Logged(|w.heard|, messages[0])
  {
    hide BlockFor, Breaks, Adds, NoneOf;
  }

  lemma HearBlocks(w: World, i: Input, hooks: Hooks, kind: MessageKind)
    requires Known(w) && KeepsIdentity(hooks) && IsBlock(kind) && InOrder(w) && Blocks(w, kind)
    ensures InOrder(Hear(w, i, hooks)) && Blocks(Hear(w, i, hooks), kind)
  {
    hide KeepsIdentity, Hear, Step, BlockFor, Said, Since, SaysSince, StillOpen, SameBlock, BlockStep;
    var w', messages := Hear(w, i, hooks), Step(w.s, i.event, i.visit, hooks).messages;
    StepKnown(w, i.event, i.visit, hooks);
    HearInOrder(w, i, hooks);
    HearBlockStep(w, i, hooks, kind);
    HeardMore(w, i, hooks);
    SaidSince(w, w', i.event, messages, kind);
    forall j | 0 <= j < |w'.log|
      ensures SaysSince(w'.log[j], w'.heard, kind) && StillOpen(w', w'.log[j], kind)
    {
      LogEntry(w, w', i.event, messages, kind, j);
      if j < |w.log| {
        SaysSinceStays(w.log[j], w.heard, i.event, kind);
        StillOpenStays(w, w', i.event, messages, w.log[j], kind);
      } else {
        NewMessage(w, w', i.event, messages, kind);
      }
    }
    forall k, j | 0 <= k < j < |w'.log|
      ensures SameBlock(w'.log[k], w'.log[j], w'.heard, kind)
    {
      LogEntry(w, w', i.event, messages, kind, k);
      LogEntry(w, w', i.event, messages, kind, j);
      if j < |w.log| {
        SameBlockStays(w.log[k], w.log[j], w.heard, i.event, kind);
      } else {
        NewMessage(w, w', i.event, messages, kind);
        SameAsOpen(w', w'.log[k], w'.log[j], kind);
      }
    }
  }

  lemma HeardMore(w: World, i: Input, hooks: Hooks)
    ensures Hear(w, i, hooks).heard == w.heard + [i.event]
  {
  }

  lemma SameAsOpen(w: World, l: Logged, newest: Logged, kind: MessageKind)
    requires l.at < newest.at && newest.at + 1 == |w.heard| && StillOpen(w, l, kind)
    requires newest.message.kind == kind ==> BlockFor(w.s, kind).Open? && BlockFor(w.s, kind).id == newest.message.id
    ensures SameBlock(l, newest, w.heard, kind)
  {
    hide BlockFor, Unbroken;
  }

  lemma {:induction false} RunBlocks(inputs: seq<Input>, hooks: Hooks, kind: MessageKind)
    requires KeepsIdentity(hooks) && IsBlock(kind)
    ensures InOrder(Run(inputs, hooks)) && Blocks(Run(inputs, hooks), kind)
  {
    hide KeepsIdentity, Known, Hear, InOrder, Blocks;
    if inputs == [] {
      StartBlocks(kind);
    } else {
      RunKnown(inputs[..|inputs| - 1], hooks);
      RunBlocks(inputs[..|inputs| - 1], hooks, kind);
      HearBlocks(Run(inputs[..|inputs| - 1], hooks), inputs[|inputs| - 1], hooks, kind);
    }
  }

  lemma StartBlocks(kind: MessageKind)
    ensures var w := World(EMPTY, [], [], []); InOrder(w) && Blocks(w, kind)
  {
  }

  lemma {:induction false} Heard(inputs: seq<Input>, hooks: Hooks)
    ensures |Run(inputs, hooks).heard| == |inputs|
    ensures forall t :: 0 <= t < |inputs| ==> Run(inputs, hooks).heard[t] == inputs[t].event
  {
    hide Step, Births, Logs;
    if inputs != [] {
      Heard(inputs[..|inputs| - 1], hooks);
    }
  }

  /** Over any run, every text or reasoning message says exactly what was said since the last
      event that broke its block; and two of them share an id exactly if nothing broke the
      block in between. */
  lemma BlocksSayWhatWasSaid(inputs: seq<Input>, hooks: Hooks, kind: MessageKind)
    requires KeepsIdentity(hooks) && IsBlock(kind)
    ensures var w := Run(inputs, hooks);
            && (forall j :: 0 <= j < |w.log| ==> w.log[j].at < |w.heard| == |inputs|)
            && (forall j :: 0 <= j < |w.log| && w.log[j].message.kind == kind ==>
                  w.log[j].message.content == Since(w.heard[..w.log[j].at + 1], kind))
            && (forall i, j :: 0 <= i < j < |w.log| && w.log[i].message.kind == w.log[j].message.kind == kind ==>
                  (w.log[i].message.id == w.log[j].message.id
                   <==> Unbroken(w.heard, w.log[i].at + 1, w.log[j].at + 1, kind)))
  {
    hide KeepsIdentity, Run, Since, Unbroken;
    var w := Run(inputs, hooks);
    RunBlocks(inputs, hooks, kind);
    Heard(inputs, hooks);
    forall j | 0 <= j < |w.log|
      ensures SaysSince(w.log[j], w.heard, kind)
    {
    }
    forall i, j | 0 <= i < j < |w.log|
      ensures SameBlock(w.log[i], w.log[j], w.heard, kind)
    {
    }
  }

  /** What has been said grows as long as nothing breaks the block. */
  lemma {:induction false} SinceGrows(events: seq<Event>, from: nat, to: nat, kind: MessageKind)
    requires from <= to <= |events| && Unbroken(events, from, to, kind)
    ensures Since(events[..from], kind) <= Since(events[..to], kind)
  {
    if from < to {
      SinceGrows(events, from, to - 1, kind);
      assert events[..to] == events[..to - 1] + [events[to - 1]];
      SinceSnoc(events[..to - 1], events[to - 1], kind);
    }
  }

  /** Later messages with an id extend the earlier ones. */
  lemma LaterExtendsEarlier(inputs: seq<Input>, hooks: Hooks, kind: MessageKind, i: nat, j: nat)
    requires KeepsIdentity(hooks) && IsBlock(kind)
    requires i < j < |Run(inputs, hooks).log|
    requires var log := Run(inputs, hooks).log;
             log[i].message.kind == log[j].message.kind == kind && log[i].message.id == log[j].message.id
    ensures var log := Run(inputs, hooks).log; log[i].message.content <= log[j].message.content
  {
    hide KeepsIdentity, Run, Since, Unbroken;
    var w := Run(inputs, hooks);
    BlocksSayWhatWasSaid(inputs, hooks, kind);
    RunBlocks(inputs, hooks, kind);
    SinceGrows(w.heard, w.log[i].at + 1, w.log[j].at + 1, kind);
  }
}
