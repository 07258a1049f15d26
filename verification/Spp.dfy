/** The Savvagent Provider Protocol: content blocks, stream events, and the client's view of a
    stream (crates/savvagent-protocol/src/stream.rs).

    `Replay` is an independent reading of an event list: it rebuilds every block from its Start and
    Delta events and is `None` as soon as the protocol is violated. */
module Spp {
  import opened Base
  import opened Fence

  datatype MediaType = Jpeg | Png | Gif | Webp

  datatype ContentBlock =
    | TextBlock(text: string)
    | HtmlBlock(source: string)
    | ToolUse(id: string, name: string, input: Value)
    | Thinking(text: string, signature: Option<string>)
    | Image(mediaType: MediaType, data: string)

  datatype StopReason = EndTurn | ToolTurn | MaxTokens | StopSequence | Refusal | Other

  datatype Usage = Usage(inputTokens: nat, outputTokens: nat, cacheCreation: Option<nat>, cacheRead: Option<nat>)

  datatype UsageDelta = UsageDelta(outputTokens: Option<nat>, cacheRead: Option<nat>)

  datatype BlockDelta =
    | TextDelta(text: string)
    | HtmlSourceDelta(source: string)
    | InputJsonDelta(partialJson: string)
    | ThinkingDelta(text: string)
    | SignatureDelta(signature: string)

  datatype StreamEvent =
    | MessageStart(id: string, model: string, usage: Usage)
    | ContentBlockStart(index: nat, block: ContentBlock)
    | ContentBlockDelta(index: nat, delta: BlockDelta)
    | ContentBlockStop(index: nat)
    | MessageDelta(stopReason: Option<StopReason>, stopSequence: Option<string>, usageDelta: UsageDelta)
    | MessageStop
    | Ping
    | Warning(message: string)

  datatype CompleteResponse = CompleteResponse(
    id: string, model: string, content: seq<ContentBlock>,
    stopReason: StopReason, stopSequence: Option<string>, usage: Usage)

  datatype ProviderError = Internal(message: string) | Network(message: string)

  const NO_USAGE := Usage(0, 0, None, None)

  // ---------------------------------------------------------------------------------------------
  // Replay
  // ---------------------------------------------------------------------------------------------

  datatype Phase = Idle | Streaming | Ended

  /** A block as the client has rebuilt it so far; `json` joins its input fragments. */
  datatype Slot = Slot(block: ContentBlock, json: string, open: bool)

  /** What the client was told of the message: who says it, the output tokens announced in total, and the
      last stop reason and stop sequence announced. */
  datatype Meta = Meta(id: string, model: string, tokens: nat, reason: Option<StopReason>, sequence: Option<string>)

  /** What the client knows: the blocks by index, the indices in the order of their Stops, and what it was
      told of the message. */
  datatype Wire = Wire(phase: Phase, slots: seq<Slot>, stops: seq<nat>, meta: Meta)

  const NO_META := Meta("", "", 0, None, None)

  const START := Wire(Idle, [], [], NO_META)

  /** The message as a client hears of it first. */
  function Introduced(id: string, model: string, u: Usage): Meta {
    Meta(id, model, u.outputTokens, None, None)
  }

  /** Tokens add up, and a later reason or sequence replaces an earlier one. */
  function Amended(m: Meta, reason: Option<StopReason>, sequence: Option<string>, d: UsageDelta): Meta {
    Meta(m.id, m.model, m.tokens + GetOr(d.outputTokens, 0),
         if reason.Some? then reason else m.reason, if sequence.Some? then sequence else m.sequence)
  }

  /** The client was told what the reply says of itself; no reason counts as the end of the turn. */
  predicate Tells(m: Meta, r: CompleteResponse) {
    m.id == r.id && m.model == r.model && GetOr(m.reason, EndTurn) == r.stopReason && m.sequence == r.stopSequence
  }

  predicate Fits(block: ContentBlock, delta: BlockDelta) {
    match delta
    case TextDelta(_) => block.TextBlock?
    case HtmlSourceDelta(_) => block.HtmlBlock?
    case InputJsonDelta(_) => block.ToolUse?
    case ThinkingDelta(_) => block.Thinking?
    case SignatureDelta(_) => block.Thinking?
  }

  function Extend(slot: Slot, delta: BlockDelta): Slot
    requires Fits(slot.block, delta)
  {
    match delta
    case TextDelta(t) => slot.(block := TextBlock(slot.block.text + t))
    case HtmlSourceDelta(t) => slot.(block := HtmlBlock(slot.block.source + t))
    case InputJsonDelta(t) => slot.(json := slot.json + t)
    case ThinkingDelta(t) => slot.(block := Thinking(slot.block.text + t, slot.block.signature))
    case SignatureDelta(t) => slot.(block := Thinking(slot.block.text, Some(t)))
  }

  predicate NoneOpen(slots: seq<Slot>) {
    forall s <- slots :: !s.open
  }

  /** One event.  Block events belong between MessageStart and MessageStop; start indices count up
      from 0; deltas and stops address a block that is open, deltas one of their kind; token counts
      add up.  `strict`
      additionally demands that blocks are opened one at a time. */
  function Apply(strict: bool, w: Wire, e: StreamEvent): Option<Wire> {
    match e
    case MessageStart(id, model, u) =>
      if w.phase.Idle? then Some(w.(phase := Streaming, meta := Introduced(id, model, u))) else None
    case ContentBlockStart(i, b) =>
      if w.phase.Streaming? && i == |w.slots| && (strict ==> NoneOpen(w.slots))
      then Some(w.(slots := w.slots + [Slot(b, "", true)])) else None
    case ContentBlockDelta(i, d) =>
      if w.phase.Streaming? && i < |w.slots| && w.slots[i].open && Fits(w.slots[i].block, d)
      then Some(w.(slots := w.slots[i := Extend(w.slots[i], d)])) else None
    case ContentBlockStop(i) =>
      if w.phase.Streaming? && i < |w.slots| && w.slots[i].open
      then Some(w.(slots := w.slots[i := w.slots[i].(open := false)], stops := w.stops + [i])) else None
    case MessageDelta(r, s, d) => if w.phase.Streaming? then Some(w.(meta := Amended(w.meta, r, s, d))) else None
    case MessageStop => if w.phase.Streaming? then Some(w.(phase := Ended)) else None
    case Ping => Some(w)
    case Warning(_) => Some(w)
  }

  function Replay(strict: bool, w: Wire, events: seq<StreamEvent>): Option<Wire>
    decreases |events|
  {
    if events == [] then Some(w) else
      var next := Apply(strict, w, events[0]);
      if next.None? then None else Replay(strict, next.value, events[1..])
  }

  lemma {:induction false} ReplayJoin(strict: bool, w: Wire, a: seq<StreamEvent>, b: seq<StreamEvent>)
    ensures Replay(strict, w, a + b) ==
            match Replay(strict, w, a)
            case None => None
            case Some(v) => Replay(strict, v, b)
    decreases |a|
  {
    hide Apply;
    if a == [] {
      assert a + b == b;
    } else {
      assert (a + b)[0] == a[0] && (a + b)[1..] == a[1..] + b;
      var next := Apply(strict, w, a[0]);
      if next.Some? {
        ReplayJoin(strict, next.value, a[1..], b);
      }
    }
  }

  lemma ReplayOne(strict: bool, w: Wire, e: StreamEvent)
    ensures Replay(strict, w, [e]) == Apply(strict, w, e)
  {
    hide Apply;
    assert [e][1..] == [];
  }

  lemma ReplayNext(strict: bool, w: Wire, a: seq<StreamEvent>, v: Wire, e: StreamEvent)
    requires Replay(strict, w, a) == Some(v)
    ensures Replay(strict, w, a + [e]) == Apply(strict, v, e)
  {
    hide Apply;
    ReplayJoin(strict, w, a, [e]);
    ReplayOne(strict, v, e);
  }

  lemma ReplayNothing(strict: bool, w: Wire)
    ensures Replay(strict, w, []) == Some(w)
  {
  }

  /** The recorded stops are the closed blocks, each once. */
  predicate StopsOk(w: Wire) {
    && (forall k :: 0 <= k < |w.stops| ==> w.stops[k] < |w.slots| && !w.slots[w.stops[k]].open)
    && (forall j, k :: 0 <= j < k < |w.stops| ==> w.stops[j] != w.stops[k])
    && (forall i :: 0 <= i < |w.slots| && !w.slots[i].open ==> i in w.stops)
  }

  /** In every stream a client can replay, a block has exactly one Stop if it is closed and none if
      it is still open. */
  lemma {:induction false} StopsExact(strict: bool, w: Wire, events: seq<StreamEvent>)
    requires StopsOk(w) && Replay(strict, w, events).Some?
    ensures StopsOk(Replay(strict, w, events).value)
    decreases |events|
  {
    if events != [] {
      StopsStep(strict, w, events[0]);
      StopsExact(strict, Apply(strict, w, events[0]).value, events[1..]);
    }
  }

  lemma OneStop(w: Wire, v: Wire, i: nat)
    requires StopsOk(w) && i < |w.slots| && w.slots[i].open
    requires v == w.(slots := w.slots[i := w.slots[i].(open := false)], stops := w.stops + [i])
    ensures StopsOk(v)
  {
    assert i !in w.stops;
    assert v.stops[|w.stops|] == i;
    forall j | 0 <= j < |v.slots| && !v.slots[j].open ensures j in v.stops {
      if j != i {
        assert j in w.stops;
      }
    }
  }

  lemma ExtendKeepsOpen(slot: Slot, delta: BlockDelta)
    requires Fits(slot.block, delta)
    ensures Extend(slot, delta).open == slot.open
  {
  }

  lemma StopsStep(strict: bool, w: Wire, e: StreamEvent)
    requires StopsOk(w) && Apply(strict, w, e).Some?
    ensures StopsOk(Apply(strict, w, e).value)
  {
    hide Fits, Extend, NoneOpen;
    var v := Apply(strict, w, e).value;
    if e.ContentBlockStop? {
      OneStop(w, v, e.index);
    } else if e.ContentBlockDelta? {
      ExtendKeepsOpen(w.slots[e.index], e.delta);
    }
  }

  /** The finished blocks in the order of their Stops. */
  function InStopOrder(w: Wire): (r: seq<ContentBlock>)
    requires StopsOk(w)
    ensures |r| == |w.stops|
  {
    seq(|w.stops|, k requires 0 <= k < |w.stops| => w.slots[w.stops[k]].block)
  }

  /** The finished block: tool input is parsed from the joined fragments when there were any. */
  function Assembled(slot: Slot, parse: string -> Option<Value>): ContentBlock {
    if slot.block.ToolUse? && slot.json != ""
    then slot.block.(input := GetOr(parse(slot.json), EMPTY_OBJECT))
    else slot.block
  }

  function AssembledAll(slots: seq<Slot>, parse: string -> Option<Value>): (r: seq<ContentBlock>)
    ensures |r| == |slots|
    ensures forall i :: 0 <= i < |slots| ==> r[i] == Assembled(slots[i], parse)
  {
    seq(|slots|, i requires 0 <= i < |slots| => Assembled(slots[i], parse))
  }

  // ---------------------------------------------------------------------------------------------
  // Content as a function of what the model said
  // ---------------------------------------------------------------------------------------------

  /** One thing the model said: a character of text or html, or a whole block. */
  datatype Item = Glyph(sym: Sym) | Whole(block: ContentBlock)

  function Glyphs(syms: seq<Sym>): (r: seq<Item>)
    ensures |r| == |syms|
  {
    seq(|syms|, i requires 0 <= i < |syms| => Glyph(syms[i]))
  }

  function StreamBlock(html: bool, s: string): ContentBlock {
    if html then HtmlBlock(s) else TextBlock(s)
  }

  predicate IsStreamBlock(b: ContentBlock, html: bool) {
    if html then b.HtmlBlock? else b.TextBlock?
  }

  function StreamText(b: ContentBlock): string
    requires b.TextBlock? || b.HtmlBlock?
  {
    if b.TextBlock? then b.text else b.source
  }

  /** Extend the last block when it is of this kind, else start a new one. */
  function AddText(blocks: seq<ContentBlock>, html: bool, s: string): seq<ContentBlock> {
    if blocks != [] && IsStreamBlock(blocks[|blocks| - 1], html)
    then blocks[..|blocks| - 1] + [StreamBlock(html, StreamText(blocks[|blocks| - 1]) + s)]
    else blocks + [StreamBlock(html, s)]
  }

  function AddItem(blocks: seq<ContentBlock>, item: Item): seq<ContentBlock> {
    match item
    case Glyph(sym) => AddText(blocks, sym.html, [sym.c])
    case Whole(b) => blocks + [b]
  }

  /** Whole blocks in order, and between them the maximal runs of text and of html. */
  function Assemble(items: seq<Item>): seq<ContentBlock> {
    if items == [] then [] else AddItem(Assemble(items[..|items| - 1]), items[|items| - 1])
  }

  /** The tool uses among blocks, in order. */
  function ToolUses(blocks: seq<ContentBlock>): (uses: seq<ContentBlock>)
    ensures forall u <- uses :: u.ToolUse?
  {
    if blocks == [] then []
    else ToolUses(blocks[..|blocks| - 1]) + if blocks[|blocks| - 1].ToolUse? then [blocks[|blocks| - 1]] else []
  }

  lemma ToolUsesSnoc(blocks: seq<ContentBlock>, b: ContentBlock)
    ensures ToolUses(blocks + [b]) == ToolUses(blocks) + if b.ToolUse? then [b] else []
  {
    assert (blocks + [b])[..|blocks|] == blocks;
  }

  /** The tool uses among what was said, text aside. */
  function ToolsSaid(items: seq<Item>): seq<ContentBlock> {
    if items == [] then []
    else
      var last := items[|items| - 1];
      ToolsSaid(items[..|items| - 1]) + if last.Whole? && last.block.ToolUse? then [last.block] else []
  }

  lemma {:induction false} AssembledTools(items: seq<Item>)
    ensures ToolUses(Assemble(items)) == ToolsSaid(items)
  {
    if items != [] {
      var init, last := items[..|items| - 1], items[|items| - 1];
      AssembledTools(init);
      match last {
        case Whole(b) => ToolUsesSnoc(Assemble(init), b);
        case Glyph(sym) => TextKeepsTools(Assemble(init), sym.html, [sym.c]);
      }
    }
  }

  lemma TextKeepsTools(blocks: seq<ContentBlock>, html: bool, s: string)
    ensures ToolUses(AddText(blocks, html, s)) == ToolUses(blocks)
  {
    if blocks != [] && IsStreamBlock(blocks[|blocks| - 1], html) {
      var init, last := blocks[..|blocks| - 1], blocks[|blocks| - 1];
      ToolUsesSnoc(init, StreamBlock(html, StreamText(last) + s));
      ToolUsesSnoc(init, last);
      assert blocks == init + [last];
    } else {
      ToolUsesSnoc(blocks, StreamBlock(html, s));
    }
  }

  lemma {:induction false} ToolsSaidJoin(a: seq<Item>, b: seq<Item>)
    ensures ToolsSaid(a + b) == ToolsSaid(a) + ToolsSaid(b)
    decreases |b|
  {
    if b == [] {
      assert a + b == a;
    } else {
      var n := |b| - 1;
      assert (a + b)[..|a| + n] == a + b[..n];
      ToolsSaidJoin(a, b[..n]);
    }
  }

  lemma {:induction false} GlyphsSayNoTools(syms: seq<Sym>)
    ensures ToolsSaid(Glyphs(syms)) == []
  {
    if syms != [] {
      var n := |syms| - 1;
      assert Glyphs(syms)[..n] == Glyphs(syms[..n]);
      GlyphsSayNoTools(syms[..n]);
    }
  }

  lemma AssembleOne(items: seq<Item>, item: Item)
    ensures Assemble(items + [item]) == AddItem(Assemble(items), item)
  {
    hide AddItem;
    assert (items + [item])[..|items|] == items;
  }

  lemma AddTextTwice(blocks: seq<ContentBlock>, html: bool, a: string, b: string)
    ensures AddText(AddText(blocks, html, a), html, b) == AddText(blocks, html, a + b)
  {
    var r := AddText(blocks, html, a);
    if |r| == |blocks| {
      assert r[..|r| - 1] == blocks[..|blocks| - 1];
      assert StreamText(blocks[|blocks| - 1]) + a + b == StreamText(blocks[|blocks| - 1]) + (a + b);
    } else {
      assert r[..|r| - 1] == blocks;
    }
  }

  /** A delta of several characters extends the content as its characters would one by one. */
  lemma {:induction false} AssembleText(items: seq<Item>, html: bool, s: string)
    requires s != ""
    ensures Assemble(items + Glyphs(Tag(html, s))) == AddText(Assemble(items), html, s)
  {
    hide AddText;
    var init, c := s[..|s| - 1], s[|s| - 1];
    assert s == init + [c];
    var before := items + Glyphs(Tag(html, init));
    assert items + Glyphs(Tag(html, s)) == before + [Glyph(Sym(html, c))];
    AssembleOne(before, Glyph(Sym(html, c)));
    if init == "" {
      assert before == items && s == [c];
    } else {
      AssembleText(items, html, init);
      AddTextTwice(Assemble(items), html, init, [c]);
    }
  }

  lemma GlyphsJoin(a: seq<Sym>, b: seq<Sym>)
    ensures Glyphs(a + b) == Glyphs(a) + Glyphs(b)
  {
  }

  /** The content of a reply that is text only: its chunks, one block each. */
  function BlocksOf(chunks: seq<FenceChunk>): seq<ContentBlock> {
    seq(|chunks|, i requires 0 <= i < |chunks| => StreamBlock(chunks[i].Html?, chunks[i].payload))
  }

  lemma {:induction false} AssembleRuns(syms: seq<Sym>)
    ensures Assemble(Glyphs(syms)) == BlocksOf(Runs(syms))
  {
    if syms != [] {
      var init, last := syms[..|syms| - 1], syms[|syms| - 1];
      AssembleRuns(init);
      assert Glyphs(syms) == Glyphs(init) + [Glyph(last)];
      AssembleOne(Glyphs(init), Glyph(last));
      BlocksOfAppend(Runs(init), last.html, [last.c]);
    }
  }

  lemma BlocksOfAppend(chunks: seq<FenceChunk>, html: bool, s: string)
    ensures BlocksOf(Append(chunks, html, s)) == AddText(BlocksOf(chunks), html, s)
  {
    if chunks != [] && chunks[|chunks| - 1].Html? == html {
      assert BlocksOf(chunks)[..|chunks| - 1] == BlocksOf(chunks[..|chunks| - 1]);
    }
  }
}
