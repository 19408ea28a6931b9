/** Splitting one outbound message into the messages that are sent for it. */
module OutboundMessages {
  import opened Text
  import opened Chunking
  import opened ChunkBreaks

  datatype MessageFormat = Unset | Plain | Markdown | Rich

  datatype PartKind = TextPart | Link | CodeBlock | Mention | Emoji | OtherPart

  datatype Part = Part(kind: PartKind, text: string, url: string, emoji: string)

  datatype AttachmentKind = Image | Gif | Video | Audio | Voice | File | OtherAttachment

  datatype Attachment = Attachment(kind: AttachmentKind, reference: string, caption: string)

  datatype Action = Action(title: string, value: string)

  /** Thread, reply and metadata are carried along unread. */
  datatype Message = Message(
    id: string, format: MessageFormat, text: string, parts: seq<Part>,
    attachments: seq<Attachment>, actions: seq<Action>,
    thread: string, reply: string, metadata: string)
  {
    predicate IsEmpty() {
      Blank(text) && parts == [] && attachments == [] && actions == []
    }
  }

  const EMPTY_MESSAGE := Message("", Unset, "", [], [], [], "", "", "")

  datatype ChunkerMode = TextMode | MarkdownMode

  datatype Policy = Policy(textChunkLimit: int, chunkerMode: ChunkerMode, textFirst: bool, inlineTextWithMedia: bool)

  /** The chunker for a message: markdown messages always use the markdown one. */
  function Chunks(policy: Policy, format: MessageFormat, text: string): seq<string> {
    if format == Markdown || policy.chunkerMode == MarkdownMode then MarkdownChunks(text, policy.textChunkLimit)
    else TextChunks(text, policy.textChunkLimit)
  }

  lemma ChunksRender(policy: Policy, format: MessageFormat, text: string)
    ensures Renders(TrimSpace(text), Chunks(policy, format, text))
    ensures policy.textChunkLimit > 0 ==> Fit(Chunks(policy, format, text), policy.textChunkLimit)
    ensures Chunks(policy, format, text) == [] <==> Blank(text)
  {
    hide Renders, TrimSpace, TextChunks, MarkdownChunks;
    TextChunksRender(text, policy.textChunkLimit);
    MarkdownChunksRender(text, policy.textChunkLimit);
  }

  /** Paragraphs that fit stay whole in the chunks of a markdown message, and lines that fit in
      those of any other, unless the policy treats all messages as markdown. */
  lemma ChunksKeepWhole(policy: Policy, format: MessageFormat, text: string, i: nat)
    requires !Blank(text)
    ensures var chunks, limit := Chunks(policy, format, text), policy.textChunkLimit;
            if format == Markdown || policy.chunkerMode == MarkdownMode then
              i < |Paragraphs(text)| && |Paragraphs(text)[i]| <= limit ==> WholeIn(chunks, Paragraphs(text), i, "\n\n")
            else i < |Lines(text)| && |Lines(text)[i]| <= limit ==> WholeIn(chunks, Lines(text), i, "\n")
  {
    hide TextChunks, MarkdownChunks, Lines, Paragraphs, WholeIn, Blank;
    LinesStayWhole(text, policy.textChunkLimit);
    ParagraphsStayWhole(text, policy.textChunkLimit);
  }

  /** normalizeOutboundMessage: a missing format is inferred. */
  function NormalizeMessage(msg: Message, hasMarkdown: string -> bool): Message {
    if msg.format != Unset then msg
    else if msg.parts != [] then msg.(format := Rich)
    else if !Blank(msg.text) then msg.(format := if hasMarkdown(msg.text) then Markdown else Plain)
    else msg
  }

  /** The format a message is sent in: its own, or what parts and text suggest. */
  function FormatOf(msg: Message, hasMarkdown: string -> bool): MessageFormat {
    if msg.format != Unset then msg.format
    else if msg.parts != [] then Rich
    else if Blank(msg.text) then Unset
    else if hasMarkdown(msg.text) then Markdown
    else Plain
  }

  /** shouldInlineTextWithMedia: the text becomes the caption of the first attachment. */
  predicate Inlines(policy: Policy, msg: Message) {
    && policy.inlineTextWithMedia
    && !Blank(msg.text) && msg.parts == [] && msg.attachments != []
    && Blank(msg.attachments[0].caption)
    && msg.attachments[0].kind in {Image, Gif, Video, Audio, Voice}
  }

  /** The messages sent for one message, media and text apart. */
  datatype Outgoing = Outgoing(media: seq<Message>, texts: seq<Message>) {
    function InOrder(policy: Policy): seq<Message> {
      if policy.textFirst then texts + media else media + texts
    }
  }

  /** The message for chunk i: only the first edits, only the last carries the actions. */
  function ChunkMessage(base: Message, chunks: seq<string>, i: nat): Message
    requires i < |chunks|
  {
    base.(id := if i == 0 then base.id else "",
          text := TrimSpace(chunks[i]),
          attachments := [],
          actions := if i < |chunks| - 1 then [] else base.actions)
  }

  /** The messages for the first n chunks; blank chunks are skipped. */
  function ChunkMessages(base: Message, chunks: seq<string>, n: nat): seq<Message>
    requires n <= |chunks|
  {
    if n == 0 then []
    else ChunkMessages(base, chunks, n - 1)
         + if Blank(chunks[n - 1]) then [] else [ChunkMessage(base, chunks, n - 1)]
  }

  /** What is sent for a message. */
  function Outgoings(msg: Message, policy: Policy, hasMarkdown: string -> bool): Outgoing {
    var normalized := NormalizeMessage(msg, hasMarkdown);
    var inline := Inlines(policy, normalized);
    var attachments :=
      if inline then normalized.attachments[0 := normalized.attachments[0].(caption := TrimSpace(normalized.text))]
      else normalized.attachments;
    var base := normalized.(text := if inline then "" else normalized.text, attachments := []);
    var chunks := Chunks(policy, normalized.format, base.text);
    Outgoing(
      if attachments == [] then []
      else [normalized.(format := Unset, text := "", parts := [], actions := [], attachments := attachments)],
      if policy.textChunkLimit > 0 && !Blank(base.text) && base.parts == []
      then ChunkMessages(base, chunks, |chunks|)
      else if base.IsEmpty() then [] else [base])
  }

  datatype BuildResult = Built(messages: seq<Message>) | MessageRequired

  method BuildOutboundMessages(msg: Message, policy: Policy, hasMarkdown: string -> bool) returns (r: BuildResult)
    ensures r == if msg.IsEmpty() then MessageRequired else Built(Outgoings(msg, policy, hasMarkdown).InOrder(policy))
    ensures r.Built? ==> InItsPlace(r.messages, msg, policy, hasMarkdown)
  {
    hide Blank, Chunks, ChunkMessages, TrimSpace, Squeeze, Concat, InItsPlace;
    if msg.IsEmpty() {
      return MessageRequired;
    }
    AttachmentsInPlace(msg, policy, hasMarkdown);
    var normalized := NormalizeMessage(msg, hasMarkdown);
    var attachments := normalized.attachments;
    var base := normalized;
    if Inlines(policy, base) {
      attachments := attachments[0 := attachments[0].(caption := TrimSpace(base.text))];
      base := base.(text := "");
    }
    base := base.(attachments := []);
    var textMessages := BuildTextMessages(base, policy);
    var attachmentMessages: seq<Message> := [];
    if |attachments| > 0 {
      attachmentMessages :=
        [normalized.(format := Unset, text := "", parts := [], actions := [], attachments := attachments)];
    }
    assert Outgoings(msg, policy, hasMarkdown) == Outgoing(attachmentMessages, textMessages);
    SomethingIsSent(msg, policy, hasMarkdown);
    if |textMessages| == 0 && |attachmentMessages| == 0 {
      return MessageRequired;
    }
    if policy.textFirst {
      return Built(textMessages + attachmentMessages);
    }
    return Built(attachmentMessages + textMessages);
  }

  /** The text half: one message for every chunk, or the message as it is. */
  method BuildTextMessages(base: Message, policy: Policy) returns (textMessages: seq<Message>)
    requires base.attachments == []
    ensures var chunks := Chunks(policy, base.format, base.text);
            textMessages ==
              if policy.textChunkLimit > 0 && !Blank(base.text) && base.parts == []
              then ChunkMessages(base, chunks, |chunks|)
              else if base.IsEmpty() then [] else [base]
  {
    hide Blank, Chunks, TrimSpace;
    textMessages := [];
    var shouldChunk := policy.textChunkLimit > 0 && !Blank(base.text) && |base.parts| == 0;
    if shouldChunk {
      var chunks := RunChunker(policy, base.format, base.text);
      for idx := 0 to |chunks|
        invariant textMessages == ChunkMessages(base, chunks, idx)
      {
        var chunk := TrimSpace(chunks[idx]);
        BlankMeans(chunks[idx]);
        if chunk == "" {
          continue;
        }
        var actions := base.actions;
        if |chunks| > 1 && idx < |chunks| - 1 {
          actions := [];
        }
        var messageID := "";
        if idx == 0 {
          messageID := base.id;
        }
        textMessages := textMessages +
          [Message(messageID, base.format, chunk, base.parts, [], actions, base.thread, base.reply, base.metadata)];
      }
    } else if !base.IsEmpty() {
      textMessages := [base];
    }
  }

  lemma BlankMeans(s: string)
    ensures Blank(s) <==> TrimSpace(s) == ""
  {
  }

  method RunChunker(policy: Policy, format: MessageFormat, text: string) returns (chunks: seq<string>)
    ensures chunks == Chunks(policy, format, text)
  {
    hide TextChunks, MarkdownChunks;
    if format == Markdown || policy.chunkerMode == MarkdownMode {
      chunks := ChunkMarkdownText(text, policy.textChunkLimit);
    } else {
      chunks := ChunkText(text, policy.textChunkLimit);
    }
  }

  // ----- What is delivered -----

  function Texts(messages: seq<Message>): seq<string> {
    seq(|messages|, i requires 0 <= i < |messages| => messages[i].text)
  }

  /** The text messages of a chunked text: one for every chunk that is not blank, in order. */
  lemma {:induction false} ChunkMessagesShape(base: Message, chunks: seq<string>, n: nat)
    requires n <= |chunks|
    requires chunks != [] ==> !Blank(chunks[0]) && !Blank(chunks[|chunks| - 1])
    ensures var ms := ChunkMessages(base, chunks, n);
            && (n > 0 <==> ms != [])
            && (forall i :: 0 <= i < |ms| ==>
                  && ms[i].id == (if i == 0 then base.id else "")
                  && ms[i].actions == (if n == |chunks| && i == |ms| - 1 then base.actions else [])
                  && ms[i].attachments == [] && ms[i].parts == base.parts && ms[i].format == base.format
                  && !Blank(ms[i].text))
            && Squeeze(Concat(Texts(ms))) == Squeeze(Concat(chunks[..n]))
  {
    hide Blank, TrimSpace, Squeeze, Concat;
    var ms := ChunkMessages(base, chunks, n);
    if n == 0 {
      assert Texts(ms) == [] == chunks[..0];
    } else {
      var earlier := ChunkMessages(base, chunks, n - 1);
      ChunkMessagesShape(base, chunks, n - 1);
      assert chunks[..n] == chunks[..n - 1] + [chunks[n - 1]];
      SqueezeSnoc(chunks[..n - 1], chunks[n - 1]);
      if Blank(chunks[n - 1]) {
        assert ms == earlier;
      } else {
        var m := ChunkMessage(base, chunks, n - 1);
        assert Texts(ms) == Texts(earlier) + [m.text];
        SqueezeSnoc(Texts(earlier), m.text);
        SqueezeTrim(chunks[n - 1]);
        TrimmedNotBlank(chunks[n - 1]);
      }
    }
  }

  lemma SqueezeSnoc(pieces: seq<string>, piece: string)
    ensures Squeeze(Concat(pieces + [piece])) == Squeeze(Concat(pieces)) + Squeeze(piece)
    ensures Blank(piece) ==> Squeeze(piece) == ""
  {
    ConcatAppend(pieces, [piece]);
    assert Concat([piece]) == piece + Concat([]) == piece;
    BlankIffAllSpace(piece);
    hide Squeeze, Concat, Blank;
    SqueezeAppend(Concat(pieces), piece);
    if AllSpace(piece) {
      SqueezeBlank(piece);
    }
  }

  lemma TrimmedNotBlank(s: string)
    requires !Blank(s)
    ensures TrimSpace(s) != "" && !Blank(TrimSpace(s)) && TrimSpace(TrimSpace(s)) == TrimSpace(s)
  {
    TrimSpaceIdempotent(TrimSpace(s));
  }

  /** The attachments as delivered: with the inlined text as caption of the first. */
  function DeliveredAttachments(msg: Message, policy: Policy): seq<Attachment> {
    if Inlines(policy, msg) then msg.attachments[0 := msg.attachments[0].(caption := TrimSpace(msg.text))]
    else msg.attachments
  }

  /** Of a message that is not empty everything is delivered exactly once: the attachments in
      the one media message, the actions with the last text message, the text, unless it has
      become a caption, in order over the text messages and within the limit. The id of an
      edit is on the first text message only (the media message repeats it). */
  lemma DeliversOnce(msg: Message, policy: Policy, hasMarkdown: string -> bool)
    requires !msg.IsEmpty()
    ensures var out, inline := Outgoings(msg, policy, hasMarkdown), Inlines(policy, msg);
            && |out.media| == (if msg.attachments == [] then 0 else 1)
            && (forall m :: m in out.media ==>
                  m.attachments == DeliveredAttachments(msg, policy)
                  && m.text == "" && m.parts == [] && m.actions == [] && m.id == msg.id)
            && (out.texts == [] <==> msg.actions == [] && msg.parts == [] && (Blank(msg.text) || inline))
            && (forall i :: 0 <= i < |out.texts| ==>
                  && out.texts[i].attachments == [] && out.texts[i].parts == msg.parts
                  && out.texts[i].format == FormatOf(msg, hasMarkdown)
                  && out.texts[i].id == (if i == 0 then msg.id else "")
                  && out.texts[i].actions == (if i == |out.texts| - 1 then msg.actions else []))
            && Squeeze(Concat(Texts(out.texts))) == (if inline then "" else Squeeze(msg.text))
            && (policy.textChunkLimit > 0 && msg.parts == [] && !Blank(msg.text) ==>
                  forall i :: 0 <= i < |out.texts| ==> |out.texts[i].text| <= policy.textChunkLimit)
  {
    hide TrimSpace, Squeeze, Concat, Chunks, ChunkMessages, Renders;
    var normalized, inline := NormalizeMessage(msg, hasMarkdown), Inlines(policy, msg);
    var base := normalized.(text := if inline then "" else normalized.text, attachments := []);
    if policy.textChunkLimit > 0 && !Blank(base.text) && base.parts == [] {
      var chunks := Chunks(policy, normalized.format, base.text);
      ChunksOfVisible(policy, normalized.format, base.text);
      assert chunks[..|chunks|] == chunks;
      ChunkMessagesShape(base, chunks, |chunks|);
      MessagesFit(base, chunks, policy.textChunkLimit, |chunks|);
    } else {
      OneText(base);
      BlankEmpty();
    }
  }

  /** The order of what is sent: the one message with the attachments comes first, or last if
      the policy puts the text first, and the texts are in order without a gap. */
  ghost predicate InItsPlace(ms: seq<Message>, msg: Message, policy: Policy, hasMarkdown: string -> bool) {
    var place := if policy.textFirst then |ms| - 1 else 0;
    && ms != []
    && (forall i :: 0 <= i < |ms| ==> (ms[i].attachments != [] <==> msg.attachments != [] && i == place))
    && (forall i :: 0 <= i < |ms| && ms[i].attachments == [] ==> ms[i].format == FormatOf(msg, hasMarkdown))
    && (msg.attachments != [] ==> RightCaptions(ms[place].attachments, msg, policy) && ms[place].text == "")
    && Squeeze(Concat(Texts(ms))) == if Captioned(msg, policy) then "" else Squeeze(msg.text)
  }

  /** The text is to be the caption of the first attachment: it has none, the policy wants it, the
      attachment can have one, and there is a text without formatted parts. */
  predicate Captioned(msg: Message, policy: Policy) {
    && policy.inlineTextWithMedia && TrimSpace(msg.text) != "" && msg.parts == []
    && msg.attachments != [] && TrimSpace(msg.attachments[0].caption) == ""
    && var kind := msg.attachments[0].kind; kind.Image? || kind.Gif? || kind.Video? || kind.Audio? || kind.Voice?
  }

  /** No caption but that of the first attachment changes. */
  predicate RightCaptions(sent: seq<Attachment>, msg: Message, policy: Policy) {
    && |sent| == |msg.attachments|
    && forall i :: 0 <= i < |sent| ==>
         && sent[i].kind == msg.attachments[i].kind && sent[i].reference == msg.attachments[i].reference
         && sent[i].caption ==
            if i == 0 && Captioned(msg, policy) then TrimSpace(msg.text) else msg.attachments[i].caption
  }

  lemma CaptionsAreRight(msg: Message, policy: Policy)
    ensures Captioned(msg, policy) <==> Inlines(policy, msg)
    ensures RightCaptions(DeliveredAttachments(msg, policy), msg, policy)
  {
    hide TrimSpace;
  }

  lemma AttachmentsInPlace(msg: Message, policy: Policy, hasMarkdown: string -> bool)
    requires !msg.IsEmpty()
    ensures InItsPlace(Outgoings(msg, policy, hasMarkdown).InOrder(policy), msg, policy, hasMarkdown)
  {
    hide Blank, Outgoings, Squeeze, Concat, Inlines;
    hide Texts, TrimSpace, Captioned, RightCaptions;
    CaptionsAreRight(msg, policy);
    var out := Outgoings(msg, policy, hasMarkdown);
    DeliversOnce(msg, policy, hasMarkdown);
    SomethingIsSent(msg, policy, hasMarkdown);
    if out.media == [] {
      assert [] + out.texts == out.texts && out.texts + [] == out.texts;
    } else {
      var media := out.media[0];
      assert out.media == [media];
      MediaAdds(media, out.texts);
      assert ([media] + out.texts)[0] == media && (out.texts + [media])[|out.texts|] == media;
    }
  }

  lemma MediaAdds(media: Message, texts: seq<Message>)
    requires media.text == ""
    ensures Squeeze(Concat(Texts([media] + texts))) == Squeeze(Concat(Texts(texts)))
    ensures Squeeze(Concat(Texts(texts + [media]))) == Squeeze(Concat(Texts(texts)))
  {
    hide Concat, Squeeze, Texts, TrimSpace;
    TextsAppend([media], texts);
    TextsAppend(texts, [media]);
    OneText(media);
    BlankEmpty();
  }

  lemma TextsAppend(a: seq<Message>, b: seq<Message>)
    ensures Squeeze(Concat(Texts(a + b))) == Squeeze(Concat(Texts(a))) + Squeeze(Concat(Texts(b)))
  {
    hide Concat, Squeeze;
    assert Texts(a + b) == Texts(a) + Texts(b);
    ConcatAppend(Texts(a), Texts(b));
    SqueezeAppend(Concat(Texts(a)), Concat(Texts(b)));
  }

  lemma SomethingIsSent(msg: Message, policy: Policy, hasMarkdown: string -> bool)
    requires !msg.IsEmpty()
    ensures Outgoings(msg, policy, hasMarkdown).InOrder(policy) != []
  {
    hide Blank, Outgoings, Squeeze, Concat;
    DeliversOnce(msg, policy, hasMarkdown);
  }

  lemma BlankEmpty()
    ensures Blank("") && Squeeze("") == "" && Concat(Texts([])) == ""
  {
  }

  lemma OneText(m: Message)
    ensures Squeeze(Concat(Texts([m]))) == Squeeze(m.text)
    ensures Blank(m.text) ==> Squeeze(m.text) == ""
  {
    assert Texts([m]) == [] + [m.text];
    assert Concat([]) == "" && Squeeze("") == "";
    SqueezeSnoc([], m.text);
  }

  /** The chunks of a visible text: a rendering that starts and ends with visible chunks. */
  lemma ChunksOfVisible(policy: Policy, format: MessageFormat, text: string)
    requires policy.textChunkLimit > 0 && !Blank(text)
    ensures var chunks := Chunks(policy, format, text);
            && chunks != [] && !Blank(chunks[0]) && !Blank(chunks[|chunks| - 1])
            && Fit(chunks, policy.textChunkLimit)
            && Squeeze(Concat(chunks)) == Squeeze(text)
  {
    hide Chunks, Squeeze, Concat, Renders, TrimSpace, IsSpace;
    ChunksRender(policy, format, text);
    var chunks := Chunks(policy, format, text);
    RenderingMeans(text, chunks);
    BlankIffAllSpace(chunks[0]);
    BlankIffAllSpace(chunks[|chunks| - 1]);
  }

  lemma {:induction false} MessagesFit(base: Message, chunks: seq<string>, limit: int, n: nat)
    requires Fit(chunks, limit) && n <= |chunks|
    ensures forall i :: 0 <= i < |ChunkMessages(base, chunks, n)| ==> |ChunkMessages(base, chunks, n)[i].text| <= limit
  {
    hide Blank, TrimSpace;
    if n > 0 {
      MessagesFit(base, chunks, limit, n - 1);
      assert |TrimSpace(chunks[n - 1])| <= |chunks[n - 1]|;
    }
  }
}
