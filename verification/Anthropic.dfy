/** The Anthropic stream adapter (crates/provider-anthropic/src/stream.rs). */
module Anthropic {
  import opened Base
  import opened Fence
  import opened Spp

  datatype UpBlock =
    | UpText(text: string)
    | UpToolUse(id: string, name: string, input: Option<Value>)
    | UpThinking(thinking: string, signature: Option<string>)
    | UpImage

  datatype UpDelta =
    | UpTextDelta(text: string)
    | UpInputJsonDelta(partialJson: string)
    | UpThinkingDelta(thinking: string)
    | UpSignatureDelta(signature: string)

  datatype UpEvent =
    | UpMessageStart(id: string, model: string, inputTokens: nat, cacheCreation: Option<nat>, cacheRead: Option<nat>)
    | UpBlockStart(index: nat, block: UpBlock)
    | UpBlockDelta(index: nat, delta: UpDelta)
    | UpBlockStop(index: nat)
    | UpMessageDelta(stopReason: Option<string>, stopSequence: Option<string>, usageDelta: UsageDelta)
    | UpMessageStop
    | UpPing
    | UpError(kind: string, message: string)

  const MAX_U32 := 0xFFFF_FFFF

  /** What each reason stands for. */
  predicate Means(r: StopReason, s: string) {
    && (r == EndTurn <==> s == "end_turn") && (r == ToolTurn <==> s == "tool_use")
    && (r == MaxTokens <==> s == "max_tokens") && (r == StopSequence <==> s == "stop_sequence")
    && (r == Refusal <==> s == "refusal")
  }

  function StopReasonFromStr(s: string): (r: StopReason)
    ensures Means(r, s)
  {
    if s == "end_turn" then EndTurn
    else if s == "tool_use" then ToolTurn
    else if s == "max_tokens" then MaxTokens
    else if s == "stop_sequence" then StopSequence
    else if s == "refusal" then Refusal
    else Other
  }

  /** Tool input taken from the joined fragments alone. */
  function InputOf(json: string, parse: string -> Option<Value>): Value {
    if json == "" then EMPTY_OBJECT else GetOr(parse(json), EMPTY_OBJECT)
  }

  // ---------------------------------------------------------------------------------------------
  // What a well-formed upstream run says
  // ---------------------------------------------------------------------------------------------

  /** The upstream block that is open, with what has arrived of it. */
  datatype Pending =
    | Nothing
    | PendingText(index: nat, buf: string, inside: bool)
    | PendingTool(index: nat, id: string, name: string, json: string)
    | PendingThinking(index: nat, text: string, signature: Option<string>)
    | PendingImage(index: nat)

  /** A tool block: the input it was started with, and the joined deltas for its input. */
  datatype ToolTold = ToolTold(id: string, name: string, input: Value, json: string)

  /** `raw` is the text received by each text block, its initial text included; `tools` are the tool blocks. */
  datatype Upstream = Upstream(
    phase: Phase, pending: Pending, used: set<nat>, said: seq<Item>, raw: map<nat, string>, tools: seq<ToolTold>)

  const QUIET := Upstream(Idle, Nothing, {}, [], map[], [])

  function Starting(b: UpBlock): seq<ToolTold> {
    if b.UpToolUse? then [ToolTold(b.id, b.name, GetOr(b.input, EMPTY_OBJECT), "")] else []
  }

  /** The last tool with more input. */
  function Lengthened(tools: seq<ToolTold>, json: string): seq<ToolTold> {
    if tools == [] then []
    else
      var last := tools[|tools| - 1];
      tools[..|tools| - 1] + [last.(json := last.json + json)]
  }

  function RawText(u: Upstream, i: nat): string {
    if i in u.raw then u.raw[i] else ""
  }

  function Opening(index: nat, b: UpBlock): Pending {
    match b
    case UpText(_) => PendingText(index, "", false)
    case UpToolUse(id, name, _) => PendingTool(index, id, name, "")
    case UpThinking(t, s) => PendingThinking(index, t, s)
    case UpImage => PendingImage(index)
  }

  function HearDelta(u: Upstream, index: nat, d: UpDelta): Option<Upstream> {
    match (u.pending, d)
    case (PendingText(i, buf, inside), UpTextDelta(t)) =>
      if i != index then None else
        var f := Feed(buf + t, inside);
        Some(u.(pending := PendingText(i, f.buf, f.inside), said := u.said + Glyphs(f.out),
                raw := u.raw[i := RawText(u, i) + t]))
    case (PendingTool(i, id, name, json), UpInputJsonDelta(j)) =>
      if i != index then None else
        Some(u.(pending := PendingTool(i, id, name, json + j), tools := Lengthened(u.tools, j)))
    case (PendingThinking(i, t, s), UpThinkingDelta(t')) =>
      if i != index then None else Some(u.(pending := PendingThinking(i, t + t', s)))
    case (PendingThinking(i, t, s), UpSignatureDelta(s')) =>
      if i != index then None else Some(u.(pending := PendingThinking(i, t, Some(s'))))
    case _ => None
  }

  /** What a block says when it stops: an image says nothing. */
  function Closing(p: Pending, parse: string -> Option<Value>): seq<Item> {
    match p
    case Nothing => []
    case PendingText(_, buf, inside) => Glyphs(EndOfText(buf, inside).out)
    case PendingTool(_, id, name, json) => [Whole(ToolUse(id, name, InputOf(json, parse)))]
    case PendingThinking(_, t, s) => [Whole(Thinking(t, s))]
    case PendingImage(_) => []
  }

  /** One upstream event; `None` when the upstream breaks its own rules: one message, blocks opened
      one at a time with distinct indices, deltas of matching kind inside their block. */
  function Hear(u: Upstream, e: UpEvent, parse: string -> Option<Value>): Option<Upstream> {
    match e
    case UpMessageStart(_, _, _, _, _) => if u.phase.Idle? then Some(u.(phase := Streaming)) else None
    case UpBlockStart(i, b) =>
      if u.phase.Streaming? && u.pending.Nothing? && i !in u.used
      then Some(u.(pending := Opening(i, b), used := u.used + {i}, tools := u.tools + Starting(b),
                   raw := if b.UpText? then u.raw[i := b.text] else u.raw)) else None
    case UpBlockDelta(i, d) => if u.phase.Streaming? then HearDelta(u, i, d) else None
    case UpBlockStop(i) =>
      if u.phase.Streaming? && !u.pending.Nothing? && u.pending.index == i
      then Some(u.(pending := Nothing, said := u.said + Closing(u.pending, parse))) else None
    case UpMessageDelta(_, _, _) => if u.phase.Streaming? then Some(u) else None
    case UpMessageStop => if u.phase.Streaming? then Some(u.(phase := Ended)) else None
    case UpPing => Some(u)
    case UpError(_, _) => Some(u)
  }

  function HearAll(u: Upstream, events: seq<UpEvent>, parse: string -> Option<Value>): Option<Upstream>
    decreases |events|
  {
    if events == [] then Some(u) else
      var next := Hear(u, events[0], parse);
      if next.None? then None else HearAll(next.value, events[1..], parse)
  }

  lemma {:induction false} HearAllSnoc(u: Upstream, events: seq<UpEvent>, e: UpEvent, parse: string -> Option<Value>)
    ensures HearAll(u, events + [e], parse)
         == match HearAll(u, events, parse)
            case None => None
            case Some(v) => Hear(v, e, parse)
    decreases |events|
  {
    hide Hear;
    var more := events + [e];
    if events == [] {
      assert more == [e] && [e][1..] == [];
    } else {
      assert more[0] == events[0] && more[1..] == events[1..] + [e];
      if Hear(u, events[0], parse).Some? {
        HearAllSnoc(Hear(u, events[0], parse).value, events[1..], e, parse);
      }
    }
  }

  predicate WellFormed(events: seq<UpEvent>, parse: string -> Option<Value>) {
    HearAll(QUIET, events, parse).Some?
  }

  // ---------------------------------------------------------------------------------------------
  // The client's blocks, normalised
  // ---------------------------------------------------------------------------------------------

  /** Empty text placeholders vanish, adjacent runs of one kind merge, tools and thinking count when
      stopped, tool input comes from the joined fragments. */
  function AddSlot(blocks: seq<ContentBlock>, s: Slot, parse: string -> Option<Value>): seq<ContentBlock> {
    match s.block
    case TextBlock(t) => if t == "" then blocks else AddText(blocks, false, t)
    case HtmlBlock(t) => if t == "" then blocks else AddText(blocks, true, t)
    case ToolUse(id, name, _) => if s.open then blocks else blocks + [ToolUse(id, name, InputOf(s.json, parse))]
    case _ => if s.open then blocks else blocks + [s.block]
  }

  function Normalized(slots: seq<Slot>, parse: string -> Option<Value>): seq<ContentBlock> {
    if slots == [] then [] else AddSlot(Normalized(slots[..|slots| - 1], parse), slots[|slots| - 1], parse)
  }

  lemma NormalizedSnoc(slots: seq<Slot>, s: Slot, parse: string -> Option<Value>)
    ensures Normalized(slots + [s], parse) == AddSlot(Normalized(slots, parse), s, parse)
  {
    hide AddSlot;
    assert (slots + [s])[..|slots|] == slots;
  }

  /** The tool blocks the client sees. */
  function ToolSlots(slots: seq<Slot>): seq<ToolTold> {
    if slots == [] then []
    else
      ToolSlots(slots[..|slots| - 1]) + OneTool(slots[|slots| - 1])
  }

  function OneTool(s: Slot): seq<ToolTold> {
    if s.block.ToolUse? then [ToolTold(s.block.id, s.block.name, s.block.input, s.json)] else []
  }

  lemma ToolSlotsSnoc(slots: seq<Slot>, s: Slot)
    ensures ToolSlots(slots + [s]) == ToolSlots(slots) + OneTool(s)
  {
    hide OneTool;
    assert (slots + [s])[..|slots|] == slots;
  }

  // ---------------------------------------------------------------------------------------------
  // The accumulator
  // ---------------------------------------------------------------------------------------------

  datatype BlockState =
    | TextState(text: string)
    | ToolState(id: string, name: string, partialJson: string)
    | ThinkingState(text: string, signature: Option<string>)
    | ImageState

  datatype LocalBlockKind = TextKind | HtmlKind | ToolKind | ThinkingKind | ImageKind

  datatype LocalBlock = LocalBlock(index: nat, kind: LocalBlockKind)

  function StreamKind(html: bool): LocalBlockKind {
    if html then HtmlKind else TextKind
  }

  /** The slots but the last are closed; the last is open exactly when a local block is current. */
  predicate OneOpen(slots: seq<Slot>, cur: Option<LocalBlock>) {
    && (forall i :: 0 <= i < |slots| - 1 ==> !slots[i].open)
    && (slots != [] ==> (slots[|slots| - 1].open <==> cur.Some?))
    && (cur.Some? ==> cur.value.index + 1 == |slots| && KindOf(slots[|slots| - 1], cur.value.kind))
  }

  predicate KindOf(s: Slot, kind: LocalBlockKind) {
    match kind
    case TextKind => s.block.TextBlock? && s.block.text != ""
    case HtmlKind => s.block.HtmlBlock? && s.block.source != ""
    case ToolKind => s.block.ToolUse?
    case ThinkingKind => s.block.Thinking?
    case ImageKind => s.block == TextBlock("")
  }

  /** The upstream block that is pending against the local state. */
  predicate Follows(p: Pending, blocks: seq<BlockState>, toLocal: map<nat, nat>, cur: Option<LocalBlock>,
                    slots: seq<Slot>) {
    match p
    case Nothing => cur == None
    case PendingText(i, _, _) =>
      i < |blocks| && blocks[i].TextState? && (cur.Some? ==> cur.value.kind.TextKind? || cur.value.kind.HtmlKind?)
    case PendingTool(i, id, name, json) =>
      && i < |blocks| && blocks[i] == ToolState(id, name, json)
      && cur.Some? && cur.value.kind.ToolKind? && i in toLocal && toLocal[i] == cur.value.index
      && slots != [] && slots[|slots| - 1].block.ToolUse?
      && slots[|slots| - 1].block.id == id && slots[|slots| - 1].block.name == name && slots[|slots| - 1].json == json
    case PendingThinking(i, t, s) =>
      && i < |blocks| && blocks[i] == ThinkingState(t, s)
      && cur.Some? && cur.value.kind.ThinkingKind? && i in toLocal && toLocal[i] == cur.value.index
      && slots != [] && slots[|slots| - 1].block == Thinking(t, s)
    case PendingImage(i) =>
      i < |blocks| && blocks[i].ImageState? && cur.Some? && cur.value.kind.ImageKind?
  }

  /** The upstream block vector reaches exactly to the largest index used, and holds the raw text of
      every text block. */
  predicate KeepsRaw(blocks: seq<BlockState>, used: set<nat>, raw: map<nat, string>) {
    && (forall i <- used :: i < |blocks|)
    && (blocks != [] ==> |blocks| - 1 in used)
    && (forall i <- raw :: i in used && i < |blocks| && blocks[i] == TextState(raw[i]))
  }

  predicate Injective(m: map<nat, nat>) {
    forall i, j :: i in m && j in m && m[i] == m[j] ==> i == j
  }

  lemma NormalizedLast(slots: seq<Slot>, s: Slot, parse: string -> Option<Value>)
    requires slots != []
    ensures Normalized(slots[|slots| - 1 := s], parse) == AddSlot(Normalized(slots[..|slots| - 1], parse), s, parse)
  {
    hide AddSlot;
    assert slots[|slots| - 1 := s][..|slots| - 1] == slots[..|slots| - 1];
  }

  /** Starting a block when none is open. */
  lemma StartStep(w: Wire, b: ContentBlock, parse: string -> Option<Value>)
    requires w.phase.Streaming? && OneOpen(w.slots, None)
    ensures var v := w.(slots := w.slots + [Slot(b, "", true)]);
            && Apply(true, w, ContentBlockStart(|w.slots|, b)) == Some(v)
            && Normalized(v.slots, parse) == AddSlot(Normalized(w.slots, parse), Slot(b, "", true), parse)
            && ToolSlots(v.slots) == ToolSlots(w.slots) + OneTool(Slot(b, "", true))
  {
    hide AddSlot, ToolSlots, OneTool, Normalized;
    ToolSlotsSnoc(w.slots, Slot(b, "", true));
    NormalizedSnoc(w.slots, Slot(b, "", true), parse);
  }

  /** What the last slot, changed, is to the tools. */
  lemma LastTool(slots: seq<Slot>, s: Slot)
    requires slots != []
    ensures var n := |slots| - 1;
            && ToolSlots(slots) == ToolSlots(slots[..n]) + OneTool(slots[n])
            && ToolSlots(slots[n := s]) == ToolSlots(slots[..n]) + OneTool(s)
  {
    hide OneTool;
    assert slots[|slots| - 1 := s][..|slots| - 1] == slots[..|slots| - 1];
  }

  lemma NoTool(html: bool)
    ensures OneTool(Slot(StreamBlock(html, ""), "", true)) == []
  {
  }

  lemma OneToolLonger(tools: seq<ToolTold>, s: Slot, d: BlockDelta)
    requires Fits(s.block, d)
    ensures tools + OneTool(Extend(s, d))
         == if d.InputJsonDelta? then Lengthened(tools + OneTool(s), d.partialJson) else tools + OneTool(s)
  {
    if d.InputJsonDelta? {
      var all := tools + OneTool(s);
      assert all[..|all| - 1] == tools;
    }
  }

  /** A delta for the block that is open. */
  lemma DeltaStep(w: Wire, d: BlockDelta, parse: string -> Option<Value>)
    requires w.phase.Streaming? && w.slots != [] && w.slots[|w.slots| - 1].open && Fits(w.slots[|w.slots| - 1].block, d)
    ensures var n := |w.slots| - 1;
            var v := w.(slots := w.slots[n := Extend(w.slots[n], d)]);
            && Apply(true, w, ContentBlockDelta(n, d)) == Some(v)
            && Normalized(v.slots, parse) == AddSlot(Normalized(w.slots[..n], parse), v.slots[n], parse)
            && ToolSlots(v.slots)
               == if d.InputJsonDelta? then Lengthened(ToolSlots(w.slots), d.partialJson) else ToolSlots(w.slots)
  {
    hide AddSlot, ToolSlots, OneTool, Normalized, Lengthened;
    LastTool(w.slots, Extend(w.slots[|w.slots| - 1], d));
    OneToolLonger(ToolSlots(w.slots[..|w.slots| - 1]), w.slots[|w.slots| - 1], d);
    NormalizedLast(w.slots, Extend(w.slots[|w.slots| - 1], d), parse);
  }

  lemma StopStep(w: Wire, parse: string -> Option<Value>)
    requires w.phase.Streaming? && w.slots != [] && w.slots[|w.slots| - 1].open
    ensures var n := |w.slots| - 1;
            var v := w.(slots := w.slots[n := w.slots[n].(open := false)], stops := w.stops + [n]);
            && Apply(true, w, ContentBlockStop(n)) == Some(v)
            && Normalized(v.slots, parse) == AddSlot(Normalized(w.slots[..n], parse), w.slots[n].(open := false), parse)
            && ToolSlots(v.slots) == ToolSlots(w.slots)
  {
    hide AddSlot, ToolSlots, Normalized;
    LastTool(w.slots, w.slots[|w.slots| - 1].(open := false));
    NormalizedLast(w.slots, w.slots[|w.slots| - 1].(open := false), parse);
  }

  lemma NormalizedUnfold(slots: seq<Slot>, parse: string -> Option<Value>)
    requires slots != []
    ensures Normalized(slots, parse) == AddSlot(Normalized(slots[..|slots| - 1], parse), slots[|slots| - 1], parse)
  {
  }

  function StateStarted(b: UpBlock): BlockState {
    match b
    case UpToolUse(id, name, _) => ToolState(id, name, "")
    case UpThinking(t, s) => ThinkingState(t, s)
    case UpText(t) => TextState(t)
    case UpImage => ImageState
  }

  function StateAfter(b: BlockState, d: UpDelta): BlockState {
    match (b, d)
    case (TextState(t), UpTextDelta(t')) => TextState(t + t')
    case (ToolState(id, name, json), UpInputJsonDelta(j)) => ToolState(id, name, json + j)
    case (ThinkingState(t, s), UpThinkingDelta(t')) => ThinkingState(t + t', s)
    case (ThinkingState(t, s), UpSignatureDelta(s')) => ThinkingState(t, Some(s'))
    case _ => b
  }

  /** What the upstream has said about one index, and only about it. */
  function Told(events: seq<UpEvent>, i: nat): Option<BlockState> {
    if events == [] then None
    else
      var before, last := Told(events[..|events| - 1], i), events[|events| - 1];
      if last.UpBlockStart? && last.index == i then Some(StateStarted(last.block))
      else if last.UpBlockDelta? && last.index == i && before.Some? then Some(StateAfter(before.value, last.delta))
      else before
  }

  /** One more than the largest index that was started. */
  function Width(events: seq<UpEvent>): nat {
    if events == [] then 0
    else
      var before, last := Width(events[..|events| - 1]), events[|events| - 1];
      if last.UpBlockStart? && last.index >= before then last.index + 1 else before
  }

  /** All upstream slots; an index that was skipped counts as an empty text. */
  function AllTold(events: seq<UpEvent>): (r: seq<BlockState>)
    ensures |r| == Width(events)
    ensures forall i | 0 <= i < |r| :: r[i] == GetOr(Told(events, i), TextState(""))
  {
    seq(Width(events), i requires 0 <= i < Width(events) => GetOr(Told(events, i), TextState("")))
  }

  /** The slots after one more event. */
  function SlotsAfter(blocks: seq<BlockState>, e: UpEvent): (r: seq<BlockState>)
    ensures |blocks| <= |r|
  {
    if e.UpBlockStart? then
      var wide := blocks + seq(if e.index < |blocks| then 0 else e.index + 1 - |blocks|, _ => TextState(""));
      wide[e.index := StateStarted(e.block)]
    else if e.UpBlockDelta? && e.index < |blocks| then blocks[e.index := StateAfter(blocks[e.index], e.delta)]
    else blocks
  }

  lemma AllToldSnoc(events: seq<UpEvent>, e: UpEvent)
    requires e.UpBlockDelta? ==> Told(events, e.index).Some? && e.index < Width(events)
    ensures AllTold(events + [e]) == SlotsAfter(AllTold(events), e)
    ensures forall i: nat :: Told(events + [e], i).Some? <==> Told(events, i).Some? || (e.UpBlockStart? && e.index == i)
  {
    hide StateAfter, StateStarted;
    var more := events + [e];
    assert more[..|events|] == events;
    assert Width(more) == |SlotsAfter(AllTold(events), e)|;
    forall i: nat | i < Width(more) ensures AllTold(more)[i] == SlotsAfter(AllTold(events), e)[i] {
      ToldBeyond(events, i);
    }
  }

  /** Nothing was said about what lies beyond the largest index. */
  lemma {:induction false} ToldBeyond(events: seq<UpEvent>, i: nat)
    ensures i >= Width(events) ==> Told(events, i).None?
  {
    hide StateAfter, StateStarted;
    if events != [] {
      ToldBeyond(events[..|events| - 1], i);
    }
  }

  class Accumulator {
    const parse: string -> Option<Value>
    var id: Option<string>
    var model: Option<string>
    var blocks: seq<BlockState>
    var stopReason: Option<StopReason>
    var stopSequence: Option<string>
    var usage: Usage
    var localNextIndex: nat
    var upstreamToLocal: map<nat, nat>
    var currentLocalBlock: Option<LocalBlock>
    var finalBlocks: seq<ContentBlock>
    var fenceParser: FenceParser

    /** The upstream as the protocol sees it, and what a client has rebuilt from every event
        emitted so far. */
    ghost var up: Upstream
    ghost var wire: Wire

    /** Local indices against the client's slots. */
    ghost predicate Indexed()
      reads `localNextIndex, `wire, `upstreamToLocal, `up, `currentLocalBlock
    {
      && wire.phase == up.phase
      && localNextIndex == |wire.slots| && OneOpen(wire.slots, currentLocalBlock)
      && Injective(upstreamToLocal) && upstreamToLocal.Keys <= up.used
      && (forall i :: i in upstreamToLocal ==> upstreamToLocal[i] < localNextIndex)
    }

    ghost predicate Recorded()
      reads `finalBlocks, `wire, `up
    {
      finalBlocks == Assemble(up.said) == Normalized(wire.slots, parse) && ToolSlots(wire.slots) == up.tools
    }

    ghost predicate Coherent()
      reads `localNextIndex, `wire, `upstreamToLocal, `up, `currentLocalBlock, `blocks, `finalBlocks
    {
      && Indexed() && Recorded() && KeepsRaw(blocks, up.used, up.raw)
      && (up.pending.PendingText? ==> up.pending.index in up.raw)
      && Follows(up.pending, blocks, upstreamToLocal, currentLocalBlock, wire.slots)
    }

    ghost predicate Valid()
      reads this, fenceParser
    {
      && Coherent() && fenceParser.Valid()
      && (if up.pending.PendingText?
          then fenceParser.buf == up.pending.buf && fenceParser.insideCanvas == up.pending.inside
          else fenceParser.buf == "" && !fenceParser.insideCanvas)
      && (id.Some? <==> !up.phase.Idle?)
      && usage.outputTokens == (if wire.meta.tokens < MAX_U32 then wire.meta.tokens else MAX_U32)
      && (up.phase.Idle? ==> usage == NO_USAGE && wire.meta == NO_META && stopReason == None && stopSequence == None)
    }

    lemma RawKept()
      requires Valid()
      ensures KeepsRaw(blocks, up.used, up.raw)
    {
    }

    constructor (parse: string -> Option<Value>)
      ensures Valid() && fresh(fenceParser) && this.parse == parse
      ensures up == QUIET && wire == START && stopReason == None && stopSequence == None && usage == NO_USAGE
              && blocks == []
    {
      this.parse := parse;
      id, model, blocks, stopReason, stopSequence, usage := None, None, [], None, None, NO_USAGE;
      localNextIndex, upstreamToLocal, currentLocalBlock, finalBlocks := 0, map[], None, [];
      fenceParser := new FenceParser();
      up, wire := QUIET, START;
    }

    method EnsureBlock(idx: nat, init: BlockState)
      modifies this`blocks
      ensures idx < |blocks| && blocks[idx] == init
              && |blocks| == (if idx < old(|blocks|) then old(|blocks|) else idx + 1)
      ensures forall i :: 0 <= i < |blocks| && i != idx ==>
        blocks[i] == if i < old(|blocks|) then old(blocks)[i] else TextState("")
    {
      while |blocks| <= idx
        invariant |blocks| >= old(|blocks|) && (|blocks| == old(|blocks|) || |blocks| <= idx + 1)
        invariant forall i :: 0 <= i < |blocks| ==>
          blocks[i] == if i < old(|blocks|) then old(blocks)[i] else TextState("")
      {
        blocks := blocks + [TextState("")];
      }
      blocks := blocks[idx := init];
    }

    /** A fresh local index, recorded for the upstream block. */
    method AllocLocal(upstreamIdx: nat) returns (local: nat)
      modifies this`localNextIndex, this`upstreamToLocal
      ensures local == old(localNextIndex) && localNextIndex == local + 1
      ensures upstreamToLocal
           == if upstreamIdx in old(upstreamToLocal) then old(upstreamToLocal)
              else old(upstreamToLocal)[upstreamIdx := local]
    {
      local := localNextIndex;
      localNextIndex := localNextIndex + 1;
      if upstreamIdx !in upstreamToLocal {
        upstreamToLocal := upstreamToLocal[upstreamIdx := local];
      }
    }

    method AllocLocalUnmapped() returns (local: nat)
      modifies this`localNextIndex
      ensures local == old(localNextIndex) && localNextIndex == local + 1
    {
      local := localNextIndex;
      localNextIndex := localNextIndex + 1;
    }

    /** The upstream block recorded for a local index, found by a scan of the map in any order. */
    method ReverseLookup(local: nat) returns (r: Option<nat>)
      ensures r.Some? ==> r.value in upstreamToLocal && upstreamToLocal[r.value] == local
      ensures r.None? ==> forall i :: i in upstreamToLocal ==> upstreamToLocal[i] != local
    {
      if i :| i in upstreamToLocal && upstreamToLocal[i] == local {
        return Some(i);
      }
      return None;
    }

    /** Close whichever local block is open and record a finished tool or thinking block. */
    method CloseCurrentStreamingBlock() returns (out: seq<StreamEvent>)
      requires Indexed() && up.phase.Streaming?
      requires Follows(up.pending, blocks, upstreamToLocal, currentLocalBlock, wire.slots)
      requires finalBlocks == Normalized(wire.slots, parse)
      modifies this`currentLocalBlock, this`finalBlocks, this`wire
      ensures Indexed() && currentLocalBlock == None && finalBlocks == Normalized(wire.slots, parse)
      ensures ToolSlots(wire.slots) == ToolSlots(old(wire.slots))
      ensures finalBlocks
           == old(finalBlocks) + match up.pending
                                 case PendingTool(_, id, name, json) => [ToolUse(id, name, InputOf(json, parse))]
                                 case PendingThinking(_, t, s) => [Thinking(t, s)]
                                 case _ => []
      ensures Replay(true, old(wire), out) == Some(wire) && wire.meta == old(wire.meta)
    {
      hide Replay, Apply, Normalized, ToolSlots;
      out := [];
      ReplayNothing(true, wire);
      if currentLocalBlock.None? {
        return;
      }
      var cur := currentLocalBlock.value;
      currentLocalBlock := None;
      StopStep(wire, parse);
      NormalizedUnfold(wire.slots, parse);
      ReplayOne(true, wire, ContentBlockStop(cur.index));
      out := [ContentBlockStop(cur.index)];
      wire := Apply(true, wire, out[0]).value;
      match cur.kind {
        case TextKind =>
        case HtmlKind =>
        case ToolKind =>
          var upstream := ReverseLookup(cur.index);
          if upstream.Some? && upstream.value < |blocks| && blocks[upstream.value].ToolState? {
            var b := blocks[upstream.value];
            finalBlocks := finalBlocks + [ToolUse(b.id, b.name, InputOf(b.partialJson, parse))];
          }
        case ThinkingKind =>
          var upstream := ReverseLookup(cur.index);
          if upstream.Some? && upstream.value < |blocks| && blocks[upstream.value].ThinkingState? {
            var b := blocks[upstream.value];
            finalBlocks := finalBlocks + [Thinking(b.text, b.signature)];
          }
        case ImageKind =>
      }
    }

    /** Extend the local block that is open. */
    method ExtendCurrent(html: bool, text: string) returns (out: seq<StreamEvent>)
      requires Coherent() && up.phase.Streaming? && up.pending.PendingText? && text != ""
      requires currentLocalBlock.Some? && currentLocalBlock.value.kind == StreamKind(html)
      modifies this`finalBlocks, this`wire, this`up
      ensures Coherent() && up == old(up).(said := old(up.said) + Glyphs(Tag(html, text)))
      ensures Replay(true, old(wire), out) == Some(wire) && wire.meta == old(wire.meta)
    {
      hide Replay, Apply, Normalized, Assemble, Glyphs, Tag, AddText, AddSlot, ToolSlots, Lengthened;
      AssembleText(up.said, html, text);
      var idx := currentLocalBlock.value.index;
      NormalizedUnfold(wire.slots, parse);
      AddSlotTwice(Normalized(wire.slots[..idx], parse), html, wire.slots[idx], text, parse);
      var delta := if html then HtmlSourceDelta(text) else TextDelta(text);
      DeltaStep(wire, delta, parse);
      ReplayOne(true, wire, ContentBlockDelta(idx, delta));
      out := [ContentBlockDelta(idx, delta)];
      wire := Apply(true, wire, out[0]).value;
      finalBlocks := AddText(finalBlocks, html, text);
      up := up.(said := up.said + Glyphs(Tag(html, text)));
    }

    /** Open a local block of this kind with its first text. */
    method OpenWith(html: bool, text: string) returns (out: seq<StreamEvent>)
      requires Coherent() && up.phase.Streaming? && up.pending.PendingText? && text != "" && currentLocalBlock == None
      modifies this`currentLocalBlock, this`finalBlocks, this`wire, this`localNextIndex, this`up
      ensures Coherent() && up == old(up).(said := old(up.said) + Glyphs(Tag(html, text)))
      ensures Replay(true, old(wire), out) == Some(wire) && wire.meta == old(wire.meta)
    {
      hide Replay, Apply, Normalized, Assemble, Glyphs, Tag, AddText, ToolSlots, OneTool, Lengthened;
      AssembleText(up.said, html, text);
      ghost var w0 := wire;
      var idx := AllocLocalUnmapped();
      assert OneTool(Slot(StreamBlock(html, ""), "", true)) == [] && up.tools + [] == up.tools by { NoTool(html); }
      StartStep(wire, StreamBlock(html, ""), parse);
      ReplayOne(true, wire, ContentBlockStart(idx, StreamBlock(html, "")));
      out := [ContentBlockStart(idx, StreamBlock(html, ""))];
      wire := Apply(true, wire, out[0]).value;
      currentLocalBlock := Some(LocalBlock(idx, StreamKind(html)));
      assert wire.slots[..idx] == w0.slots;
      assert "" + text == text;
      var delta := if html then HtmlSourceDelta(text) else TextDelta(text);
      DeltaStep(wire, delta, parse);
      ReplayNext(true, w0, out, wire, ContentBlockDelta(idx, delta));
      out := out + [ContentBlockDelta(idx, delta)];
      wire := Apply(true, wire, ContentBlockDelta(idx, delta)).value;
      finalBlocks := AddText(finalBlocks, html, text);
      up := up.(said := up.said + Glyphs(Tag(html, text)));
    }

    /** One fence chunk: extend the local block of its kind, or switch to a new one. */
    method EmitStreamChunk(html: bool, text: string) returns (out: seq<StreamEvent>)
      requires Coherent() && up.phase.Streaming? && up.pending.PendingText? && text != ""
      modifies this`currentLocalBlock, this`finalBlocks, this`wire, this`localNextIndex, this`up
      ensures Coherent() && up == old(up).(said := old(up.said) + Glyphs(Tag(html, text)))
      ensures Replay(true, old(wire), out) == Some(wire) && wire.meta == old(wire.meta)
    {
      hide Replay, Apply, Normalized, Assemble, Glyphs, Tag, AddText, AddSlot, ToolSlots, Lengthened;
      ghost var w0 := wire;
      out := [];
      ReplayNothing(true, wire);
      if currentLocalBlock.Some? && currentLocalBlock.value.kind != StreamKind(html) {
        out := CloseCurrentStreamingBlock();
      }
      var evs;
      if currentLocalBlock.Some? {
        evs := ExtendCurrent(html, text);
      } else {
        evs := OpenWith(html, text);
      }
      ReplayJoin(true, w0, out, evs);
      out := out + evs;
    }

    method EmitFenceChunks(chunks: seq<FenceChunk>) returns (out: seq<StreamEvent>)
      requires Coherent() && up.phase.Streaming? && up.pending.PendingText? && Canonical(chunks)
      modifies this`currentLocalBlock, this`finalBlocks, this`wire, this`localNextIndex, this`up
      ensures Coherent() && up == old(up).(said := old(up.said) + Glyphs(Flat(chunks)))
      ensures Replay(true, old(wire), out) == Some(wire) && wire.meta == old(wire.meta)
    {
      hide Coherent, Replay;
      out := [];
      ghost var w0 := wire;
      ReplayNothing(true, w0);
      var k := 0;
      while k < |chunks|
        invariant 0 <= k <= |chunks|
        invariant Coherent() && up == old(up).(said := old(up.said) + Glyphs(Flat(chunks[..k])))
        invariant Replay(true, w0, out) == Some(wire) && wire.meta == w0.meta
      {
        var evs := EmitStreamChunk(chunks[k].Html?, chunks[k].payload);
        ReplayJoin(true, w0, out, evs);
        out := out + evs;
        assert chunks[..k + 1][..k] == chunks[..k];
        k := k + 1;
      }
      assert chunks[..k] == chunks;
    }

    /** ContentBlockStart of a text block only sets up its slot: its first delta decides whether
        text or html is started. */
    method StartText(index: nat, text: string)
      requires Coherent() && Hear(up, UpBlockStart(index, UpText(text)), parse).Some?
      modifies this`blocks, this`up
      ensures Coherent() && up == Hear(old(up), UpBlockStart(index, UpText(text)), parse).value
      ensures blocks == SlotsAfter(old(blocks), UpBlockStart(index, UpText(text)))
    {
      hide Normalized, Assemble, KeepsRaw, SlotsAfter;
      EnsureBlock(index, TextState(text));
      SlotSetUp(old(blocks), blocks, index, UpText(text));
      KeepsRawStart(old(blocks), blocks, up.used, up.raw, index, TextState(text));
      up := Hear(up, UpBlockStart(index, UpText(text)), parse).value;
    }

    method SetUpSlot(index: nat, b: UpBlock)
      requires KeepsRaw(blocks, up.used, up.raw) && index !in up.used && !b.UpText?
      modifies this`blocks
      ensures blocks == SlotsAfter(old(blocks), UpBlockStart(index, b))
      ensures index < |blocks| && blocks[index] == StateStarted(b) && KeepsRaw(blocks, up.used + {index}, up.raw)
    {
      EnsureBlock(index, StateStarted(b));
      KeepsRawStart(old(blocks), blocks, up.used, up.raw, index, StateStarted(b));
      SlotSetUp(old(blocks), blocks, index, b);
    }

    /** ContentBlockStart of any other block starts a local block at once. */
    method StartOther(index: nat, b: UpBlock) returns (out: seq<StreamEvent>)
      requires Coherent() && Hear(up, UpBlockStart(index, b), parse).Some? && !b.UpText?
      modifies this`currentLocalBlock, this`finalBlocks, this`wire, this`localNextIndex, this`upstreamToLocal,
               this`blocks, this`up
      ensures Coherent() && up == Hear(old(up), UpBlockStart(index, b), parse).value
      ensures blocks == SlotsAfter(old(blocks), UpBlockStart(index, b))
      ensures Replay(true, old(wire), out) == Some(wire) && wire.meta == old(wire.meta)
    {
      hide Replay, Apply, Normalized, Assemble, AddText, KeepsRaw, AddSlot, Follows, KindOf, StartedBlock, KindStarted;
      hide ToolSlots, OneTool, Starting;
      hide SlotsAfter;
      ghost var w0 := wire;
      out := CloseCurrentStreamingBlock();
      StartedFits(finalBlocks, b, parse);
      var block, kind := StartedBlock(b), KindStarted(b);
      StartStep(wire, block, parse);
      ReplayNext(true, w0, out, wire, ContentBlockStart(localNextIndex, block));
      var localIdx := AllocLocal(index);
      out := out + [ContentBlockStart(localIdx, block)];
      wire := Apply(true, wire, ContentBlockStart(localIdx, block)).value;
      currentLocalBlock := Some(LocalBlock(localIdx, kind));
      SetUpSlot(index, b);
      up := Hear(up, UpBlockStart(index, b), parse).value;
      FollowsStart(index, b, blocks, upstreamToLocal, localIdx, wire.slots);
    }

    /** Raw text is recorded in the upstream slot. */
    method RecordText(index: nat, text: string)
      requires Coherent() && up.pending.PendingText? && up.pending.index == index
      modifies this`blocks, this`up
      ensures Coherent() && up == old(up).(raw := old(up.raw)[index := RawText(old(up), index) + text])
      ensures blocks == SlotsAfter(old(blocks), UpBlockDelta(index, UpTextDelta(text)))
    {
      hide Normalized, Assemble, OneOpen;
      if index < |blocks| && blocks[index].TextState? {
        blocks := blocks[index := TextState(blocks[index].text + text)];
      }
      up := up.(raw := up.raw[index := RawText(up, index) + text]);
    }

    /** A text delta is recorded and cut by the fence parser. */
    method TextArrives(index: nat, text: string) returns (out: seq<StreamEvent>)
      requires Valid() && Hear(up, UpBlockDelta(index, UpTextDelta(text)), parse).Some?
      modifies this`currentLocalBlock, this`finalBlocks, this`wire, this`localNextIndex, this`blocks, this`up,
               fenceParser
      ensures Valid() && up == Hear(old(up), UpBlockDelta(index, UpTextDelta(text)), parse).value
      ensures blocks == SlotsAfter(old(blocks), UpBlockDelta(index, UpTextDelta(text)))
      ensures Replay(true, old(wire), out) == Some(wire) && wire.meta == old(wire.meta)
    {
      hide Replay, Normalized, Assemble, Glyphs, Feed, Held, KeepsRaw, OneOpen, ToolSlots, Injective;
      RecordText(index, text);
      var chunks := fenceParser.Push(text);
      out := EmitFenceChunks(chunks);
      up := up.(pending := PendingText(index, fenceParser.buf, fenceParser.insideCanvas));
    }

    /** Any other delta is recorded in its upstream slot and routed to its local block. */
    method OtherArrives(index: nat, d: UpDelta) returns (out: seq<StreamEvent>)
      requires Coherent() && Hear(up, UpBlockDelta(index, d), parse).Some? && !d.UpTextDelta?
      modifies this`wire, this`blocks, this`up
      ensures Coherent() && up == Hear(old(up), UpBlockDelta(index, d), parse).value
      ensures blocks == SlotsAfter(old(blocks), UpBlockDelta(index, d))
      ensures Replay(true, old(wire), out) == Some(wire) && wire.meta == old(wire.meta)
    {
      hide Replay, Apply, Normalized, Assemble, Feed, KeepsRaw, Follows, OneOpen, AddSlot, Fits, Extend, HearDelta;
      hide ToolSlots, Lengthened;
      OtherFits(up, index, d, blocks, upstreamToLocal, currentLocalBlock, wire.slots, parse);
      RecordOther(index, d);
      var localIdx := if index in upstreamToLocal then upstreamToLocal[index] else index;
      var delta := LocalDelta(d);
      DeltaStep(wire, delta, parse);
      ReplayOne(true, wire, ContentBlockDelta(localIdx, delta));
      out := [ContentBlockDelta(localIdx, delta)];
      NormalizedUnfold(wire.slots, parse);
      wire := Apply(true, wire, out[0]).value;
      up := Hear(up, UpBlockDelta(index, d), parse).value;
    }

    /** A delta that is not text is recorded in its upstream slot. */
    method RecordOther(index: nat, d: UpDelta)
      requires !d.UpTextDelta?
      modifies this`blocks
      ensures blocks == SlotsAfter(old(blocks), UpBlockDelta(index, d))
    {
      if index < |blocks| {
        match (blocks[index], d) {
          case (ToolState(id, name, json), UpInputJsonDelta(j)) =>
            blocks := blocks[index := ToolState(id, name, json + j)];
          case (ThinkingState(t, s), UpThinkingDelta(t')) => blocks := blocks[index := ThinkingState(t + t', s)];
          case (ThinkingState(t, s), UpSignatureDelta(s')) => blocks := blocks[index := ThinkingState(t, Some(s'))];
          case _ =>
        }
      }
    }

    /** What the fence parser holds back is emitted, and the parser reset. */
    method DrainText() returns (out: seq<StreamEvent>)
      requires Valid() && up.phase.Streaming? && up.pending.PendingText?
      modifies this`currentLocalBlock, this`finalBlocks, this`wire, this`localNextIndex, this`fenceParser, this`up,
               fenceParser
      ensures Coherent() && fresh(fenceParser) && fenceParser.Valid() && fenceParser.buf == ""
              && !fenceParser.insideCanvas
      ensures up == old(up).(said := old(up.said) + Glyphs(EndOfText(old(up.pending.buf), old(up.pending.inside)).out))
      ensures Replay(true, old(wire), out) == Some(wire) && wire.meta == old(wire.meta)
    {
      hide Coherent, Replay, EndOfText, Held, Glyphs;
      var finish := fenceParser.Finish();
      fenceParser := new FenceParser();
      out := EmitFenceChunks(finish.chunks);
    }

    /** The end of a text block: what the fence parser holds back is emitted first. */
    method StopText(index: nat) returns (out: seq<StreamEvent>)
      requires Valid() && Hear(up, UpBlockStop(index), parse).Some? && up.pending.PendingText?
      modifies this`currentLocalBlock, this`finalBlocks, this`wire, this`localNextIndex, this`fenceParser, this`up,
               fenceParser
      ensures Valid() && up == Hear(old(up), UpBlockStop(index), parse).value && fresh(fenceParser)
      ensures Replay(true, old(wire), out) == Some(wire) && wire.meta == old(wire.meta)
    {
      hide Replay, Normalized, Assemble, Line, Held, Glyphs, Follows, OneOpen, IsStreamBlock, KindOf, InputOf, Flat;
      ghost var w0 := wire;
      out := DrainText();
      var evs := CloseCurrentStreamingBlock();
      ReplayJoin(true, w0, out, evs);
      out := out + evs;
      up := up.(pending := Nothing);
      NothingFollows(blocks, upstreamToLocal, wire.slots);
    }

    method StopOther(index: nat) returns (out: seq<StreamEvent>)
      requires Coherent() && Hear(up, UpBlockStop(index), parse).Some? && !up.pending.PendingText?
      modifies this`currentLocalBlock, this`finalBlocks, this`wire, this`up
      ensures Coherent() && up == Hear(old(up), UpBlockStop(index), parse).value
      ensures Replay(true, old(wire), out) == Some(wire) && wire.meta == old(wire.meta)
    {
      hide Replay, Normalized, Assemble, OneOpen;
      out := CloseCurrentStreamingBlock();
      if up.pending.PendingTool? || up.pending.PendingThinking? {
        AssembleOne(up.said, Closing(up.pending, parse)[0]);
      } else {
        assert up.said + [] == up.said;
      }
      up := Hear(up, UpBlockStop(index), parse).value;
    }

    /** ContentBlockStop: drain the fence parser after a text block, then close what is open. */
    method StopBlock(index: nat) returns (out: seq<StreamEvent>)
      requires Valid() && Hear(up, UpBlockStop(index), parse).Some?
      modifies this`currentLocalBlock, this`finalBlocks, this`wire, this`localNextIndex, this`fenceParser, this`up,
               fenceParser
      ensures Valid() && up == Hear(old(up), UpBlockStop(index), parse).value
      ensures Replay(true, old(wire), out) == Some(wire) && wire.meta == old(wire.meta)
      ensures fenceParser == old(fenceParser) || fresh(fenceParser)
    {
      hide Replay, Normalized, Assemble, Held, OneOpen;
      if index < |blocks| && blocks[index].TextState? {
        out := StopText(index);
      } else {
        out := StopOther(index);
      }
    }

    method BeginMessage(ev: UpEvent) returns (out: seq<StreamEvent>)
      requires Valid() && ev.UpMessageStart? && up.phase.Idle?
      modifies this`id, this`model, this`usage, this`wire, this`up
      ensures Valid() && up == old(up).(phase := Streaming)
      ensures id == Some(ev.id) && model == Some(ev.model)
      ensures usage == Usage(ev.inputTokens, 0, ev.cacheCreation, ev.cacheRead)
      ensures Replay(true, old(wire), out) == Some(wire) && wire.meta == Meta(ev.id, ev.model, 0, None, None)
    {
      hide Replay, Normalized, Assemble, KeepsRaw, Held;
      id := Some(ev.id);
      model := Some(ev.model);
      usage := usage.(inputTokens := ev.inputTokens, cacheCreation := ev.cacheCreation, cacheRead := ev.cacheRead);
      out := [MessageStart(ev.id, ev.model, usage)];
      ReplayOne(true, wire, out[0]);
      wire := wire.(phase := Streaming, meta := Introduced(ev.id, ev.model, usage));
      up := up.(phase := Streaming);
    }

    method SetReasons(ev: UpEvent)
      requires Valid() && ev.UpMessageDelta? && up.phase.Streaming?
      modifies this`stopReason, this`stopSequence
      ensures Valid()
      ensures stopReason == if ev.stopReason.Some? then Some(StopReasonFromStr(ev.stopReason.value))
              else old(stopReason)
      ensures stopSequence == if ev.stopSequence.Some? then ev.stopSequence else old(stopSequence)
    {
      hide Coherent, Held, StopReasonFromStr;
      if ev.stopReason.Some? {
        stopReason := Some(StopReasonFromStr(ev.stopReason.value));
      }
      if ev.stopSequence.Some? {
        stopSequence := ev.stopSequence;
      }
    }

    method UpdateMessage(ev: UpEvent) returns (out: seq<StreamEvent>)
      requires Valid() && ev.UpMessageDelta? && up.phase.Streaming?
      modifies this`stopReason, this`stopSequence, this`usage, this`wire
      ensures Valid()
      ensures stopReason == if ev.stopReason.Some? then Some(StopReasonFromStr(ev.stopReason.value))
              else old(stopReason)
      ensures stopSequence == if ev.stopSequence.Some? then ev.stopSequence else old(stopSequence)
      ensures usage == old(usage).(outputTokens := usage.outputTokens)
      ensures Replay(true, old(wire), out) == Some(wire)
      ensures wire.meta == Amended(old(wire.meta), stopReason, stopSequence, ev.usageDelta)
    {
      hide Replay, Normalized, Assemble, KeepsRaw, Held, OneOpen, Follows, StopReasonFromStr, Injective, Apply;
      SetReasons(ev);
      if ev.usageDelta.outputTokens.Some? {
        var sum := usage.outputTokens + ev.usageDelta.outputTokens.value;
        usage := usage.(outputTokens := if sum < MAX_U32 then sum else MAX_U32);
      }
      out := [MessageDelta(stopReason, stopSequence, ev.usageDelta)];
      ReplayOne(true, wire, out[0]);
      MetaStep(wire, out[0]);
      wire := wire.(meta := Amended(wire.meta, stopReason, stopSequence, ev.usageDelta));
    }

    /** ContentBlockStart. */
    method StartBlock(index: nat, b: UpBlock) returns (out: seq<StreamEvent>)
      requires Valid() && Hear(up, UpBlockStart(index, b), parse).Some?
      modifies this`currentLocalBlock, this`finalBlocks, this`wire, this`localNextIndex, this`upstreamToLocal,
               this`blocks, this`up
      ensures Valid() && up == Hear(old(up), UpBlockStart(index, b), parse).value
      ensures blocks == SlotsAfter(old(blocks), UpBlockStart(index, b))
      ensures Replay(true, old(wire), out) == Some(wire) && wire.meta == old(wire.meta)
    {
      hide Replay, Normalized, Assemble, KeepsRaw, Held, OneOpen, Follows, StateAfter, StateStarted, SlotsAfter;
      if b.UpText? {
        StartText(index, b.text);
        out := [];
        ReplayNothing(true, wire);
      } else {
        out := StartOther(index, b);
      }
    }

    /** ContentBlockDelta. */
    method DeltaArrives(index: nat, d: UpDelta) returns (out: seq<StreamEvent>)
      requires Valid() && Hear(up, UpBlockDelta(index, d), parse).Some?
      modifies this`currentLocalBlock, this`finalBlocks, this`wire, this`localNextIndex, this`blocks, this`up,
               fenceParser
      ensures Valid() && up == Hear(old(up), UpBlockDelta(index, d), parse).value
      ensures blocks == SlotsAfter(old(blocks), UpBlockDelta(index, d))
      ensures Replay(true, old(wire), out) == Some(wire) && wire.meta == old(wire.meta)
    {
      hide Replay, Normalized, Assemble, KeepsRaw, Held, OneOpen, Follows, StateAfter, StateStarted, SlotsAfter, Feed;
      if d.UpTextDelta? {
        out := TextArrives(index, d.text);
      } else {
        out := OtherArrives(index, d);
      }
    }

    /** Events that change no block: the end of the message, pings and errors. */
    method PassOn(ev: UpEvent) returns (out: seq<StreamEvent>)
      requires Valid() && Hear(up, ev, parse).Some? && (ev.UpMessageStop? || ev.UpPing? || ev.UpError?)
      modifies this`wire, this`up
      ensures Valid() && up == Hear(old(up), ev, parse).value
      ensures Replay(true, old(wire), out) == Some(wire) && wire.meta == old(wire.meta)
    {
      hide Replay, Normalized, Assemble, KeepsRaw, Held, OneOpen, Follows;
      match ev {
        case UpMessageStop =>
          out := [MessageStop];
          ReplayOne(true, wire, MessageStop);
          wire := wire.(phase := Ended);
          up := up.(phase := Ended);
        case UpPing =>
          out := [Ping];
          ReplayOne(true, wire, Ping);
        case UpError(kind, message) =>
          out := [Warning(kind + ": " + message)];
          ReplayOne(true, wire, out[0]);
      }
    }

    method Consume(ev: UpEvent) returns (out: seq<StreamEvent>)
      requires Valid() && Hear(up, ev, parse).Some?
      modifies this, fenceParser
      ensures Valid() && up == Hear(old(up), ev, parse).value
      ensures blocks == SlotsAfter(old(blocks), ev)
      ensures Replay(true, old(wire), out) == Some(wire)
      ensures fenceParser == old(fenceParser) || fresh(fenceParser)
      ensures if ev.UpMessageStart?
              then id == Some(ev.id) && model == Some(ev.model)
                && usage == Usage(ev.inputTokens, 0, ev.cacheCreation, ev.cacheRead)
              else id == old(id) && model == old(model) && usage == old(usage).(outputTokens := usage.outputTokens)
      ensures if ev.UpMessageDelta?
              then && stopReason == (if ev.stopReason.Some? then Some(StopReasonFromStr(ev.stopReason.value))
                                     else old(stopReason))
                   && stopSequence == (if ev.stopSequence.Some? then ev.stopSequence else old(stopSequence))
              else stopReason == old(stopReason) && stopSequence == old(stopSequence)
      ensures wire.meta == match ev
                           case UpMessageStart(_, _, _, _, _) => Meta(ev.id, ev.model, 0, None, None)
                           case UpMessageDelta(_, _, d) => Amended(old(wire.meta), stopReason, stopSequence, d)
                           case _ => old(wire.meta)
    {
      hide Replay, Valid, StopReasonFromStr, StateAfter, StateStarted, HearDelta, Closing, Opening;
      match ev {
        case UpMessageStart(_, _, _, _, _) =>
          out := BeginMessage(ev);
        case UpBlockStart(index, b) => out := StartBlock(index, b);
        case UpBlockDelta(index, d) => out := DeltaArrives(index, d);
        case UpBlockStop(index) => out := StopBlock(index);
        case UpMessageDelta(_, _, _) => out := UpdateMessage(ev);
        case UpMessageStop => out := PassOn(ev);
        case UpPing => out := PassOn(ev);
        case UpError(_, _) => out := PassOn(ev);
      }
    }

    /** The final response: the recorded blocks, or, if there are none, what the upstream slots hold. */
    method Finish() returns (r: Result<CompleteResponse, ProviderError>)
      ensures id.None? ==> r == Err(Internal("stream decode error: missing message_start"))
      ensures id.Some? ==>
                var content := if finalBlocks != [] then Ok(finalBlocks) else Fallback(blocks, parse);
                r == match content
                     case Err(e) => Err(e)
                     case Ok(c) =>
                       Ok(CompleteResponse(id.value, GetOr(model, ""), c, GetOr(stopReason, EndTurn), stopSequence,
                                           usage))
    {
      if id.None? {
        return Err(Internal("stream decode error: missing message_start"));
      }
      var content := finalBlocks;
      if content == [] {
        var k := 0;
        assert blocks[0..] == blocks;
        PrependNone(Fallback(blocks, parse));
        while k < |blocks|
          invariant 0 <= k <= |blocks|
          invariant Fallback(blocks, parse) == Prepend(content, Fallback(blocks[k..], parse))
        {
          assert blocks[k..][1..] == blocks[k + 1..];
          ghost var rest := Fallback(blocks[k + 1..], parse);
          PrependTwice(content, FallbackOf(blocks[k], parse), rest);
          assert content + [] == content;
          match blocks[k] {
            case TextState(text) => content := content + [TextBlock(text)];
            case ToolState(id, name, partialJson) =>
              var input := EMPTY_OBJECT;
              if partialJson != "" {
                if parse(partialJson).None? {
                  return Err(Internal("stream decode error: tool_use partial_json invalid"));
                }
                input := parse(partialJson).value;
              }
              content := content + [ToolUse(id, name, input)];
            case ThinkingState(text, signature) => content := content + [Thinking(text, signature)];
            case ImageState =>
          }
          k := k + 1;
        }
        assert blocks[k..] == [];
        assert content + [] == content;
      }
      return Ok(CompleteResponse(id.value, GetOr(model, ""), content, GetOr(stopReason, EndTurn), stopSequence, usage));
    }
  }

  lemma MetaStep(w: Wire, e: StreamEvent)
    requires w.phase.Streaming? && e.MessageDelta?
    ensures Apply(true, w, e) == Some(w.(meta := Amended(w.meta, e.stopReason, e.stopSequence, e.usageDelta)))
  {
  }

  function Prepend(c: seq<ContentBlock>, rest: Result<seq<ContentBlock>, ProviderError>)
    : Result<seq<ContentBlock>, ProviderError>
  {
    match rest
    case Ok(d) => Ok(c + d)
    case Err(e) => Err(e)
  }

  lemma PrependNone(r: Result<seq<ContentBlock>, ProviderError>)
    ensures Prepend([], r) == r
  {
    if r.Ok? {
      assert [] + r.value == r.value;
    }
  }

  lemma PrependTwice(a: seq<ContentBlock>, b: seq<ContentBlock>, r: Result<seq<ContentBlock>, ProviderError>)
    ensures Prepend(a, Prepend(b, r)) == Prepend(a + b, r)
  {
    if r.Ok? {
      assert a + (b + r.value) == (a + b) + r.value;
    }
  }

  /** The content of one upstream slot; an image has none. */
  function FallbackOf(b: BlockState, parse: string -> Option<Value>): seq<ContentBlock> {
    match b
    case TextState(t) => [TextBlock(t)]
    case ThinkingState(t, s) => [Thinking(t, s)]
    case ImageState => []
    case ToolState(id, name, json) => [ToolUse(id, name, InputOf(json, parse))]
  }

  /** Content straight from the upstream slots; here invalid tool JSON is an error. */
  function Fallback(blocks: seq<BlockState>, parse: string -> Option<Value>): Result<seq<ContentBlock>, ProviderError> {
    if blocks == [] then Ok([])
    else if blocks[0].ToolState? && blocks[0].partialJson != "" && parse(blocks[0].partialJson).None?
    then Err(Internal("stream decode error: tool_use partial_json invalid"))
    else Prepend(FallbackOf(blocks[0], parse), Fallback(blocks[1..], parse))
  }

  lemma NothingFollows(blocks: seq<BlockState>, toLocal: map<nat, nat>, slots: seq<Slot>)
    ensures Follows(Nothing, blocks, toLocal, None, slots)
  {
  }

  function LocalDelta(d: UpDelta): BlockDelta {
    match d
    case UpTextDelta(t) => TextDelta(t)
    case UpInputJsonDelta(j) => InputJsonDelta(j)
    case UpThinkingDelta(t) => ThinkingDelta(t)
    case UpSignatureDelta(s) => SignatureDelta(s)
  }

  function StartedBlock(b: UpBlock): ContentBlock {
    match b
    case UpToolUse(id, name, input) => ToolUse(id, name, GetOr(input, EMPTY_OBJECT))
    case UpThinking(t, s) => Thinking(t, s)
    case _ => TextBlock("")
  }

  function KindStarted(b: UpBlock): LocalBlockKind {
    match b
    case UpToolUse(_, _, _) => ToolKind
    case UpThinking(_, _) => ThinkingKind
    case _ => ImageKind
  }

  lemma StartedFits(blocks: seq<ContentBlock>, b: UpBlock, parse: string -> Option<Value>)
    requires !b.UpText?
    ensures var s := Slot(StartedBlock(b), "", true);
            && KindOf(s, KindStarted(b)) && AddSlot(blocks, s, parse) == blocks
            && Starting(b) == OneTool(s)
  {
  }

  lemma FollowsStart(index: nat, b: UpBlock, blocks: seq<BlockState>, toLocal: map<nat, nat>, localIdx: nat,
                     slots: seq<Slot>)
    requires !b.UpText? && index < |blocks| && blocks[index] == StateStarted(b)
    requires index in toLocal && toLocal[index] == localIdx
    requires slots != [] && slots[|slots| - 1] == Slot(StartedBlock(b), "", true)
    ensures Follows(Opening(index, b), blocks, toLocal, Some(LocalBlock(localIdx, KindStarted(b))), slots)
  {
  }

  /** A delta for a tool or a thought fits the block that is open, and what is open follows it. */
  lemma OtherFits(u: Upstream, index: nat, d: UpDelta, blocks: seq<BlockState>, toLocal: map<nat, nat>,
                  cur: Option<LocalBlock>, slots: seq<Slot>, parse: string -> Option<Value>)
    requires !d.UpTextDelta? && u.phase.Streaming? && HearDelta(u, index, d).Some?
    requires Follows(u.pending, blocks, toLocal, cur, slots) && OneOpen(slots, cur) && KeepsRaw(blocks, u.used, u.raw)
    ensures slots != [] && slots[|slots| - 1].open && index in toLocal && toLocal[index] == |slots| - 1
    ensures var n, delta := |slots| - 1, LocalDelta(d);
            var after, v := SlotsAfter(blocks, UpBlockDelta(index, d)), HearDelta(u, index, d).value;
            && Fits(slots[n].block, delta)
            && var longer := slots[n := Extend(slots[n], delta)];
               && Follows(v.pending, after, toLocal, cur, longer) && OneOpen(longer, cur)
               && KeepsRaw(after, v.used, v.raw) && !v.pending.PendingText?
               && v.said == u.said && v.used == u.used && v.phase == u.phase
               && v.tools == (if delta.InputJsonDelta? then Lengthened(u.tools, delta.partialJson) else u.tools)
               && forall before :: AddSlot(before, longer[n], parse) == AddSlot(before, slots[n], parse)
  {
    hide Feed;
  }

  lemma SlotSetUp(before: seq<BlockState>, after: seq<BlockState>, idx: nat, b: UpBlock)
    requires idx < |after| && after[idx] == StateStarted(b) && |after| == (if idx < |before| then |before| else idx + 1)
    requires forall i :: 0 <= i < |after| && i != idx ==> after[i] == if i < |before| then before[i] else TextState("")
    ensures after == SlotsAfter(before, UpBlockStart(idx, b))
  {
    hide StateStarted;
  }

  /** Setting up the slot of a new upstream block. */
  lemma KeepsRawStart(before: seq<BlockState>, after: seq<BlockState>, used: set<nat>, raw: map<nat, string>, idx: nat,
                      init: BlockState)
    requires KeepsRaw(before, used, raw) && idx !in used
    requires idx < |after| && after[idx] == init && |after| == (if idx < |before| then |before| else idx + 1)
    requires forall i :: 0 <= i < |after| && i != idx ==> after[i] == if i < |before| then before[i] else TextState("")
    ensures KeepsRaw(after, used + {idx}, if init.TextState? then raw[idx := init.text] else raw)
  {
  }

  lemma AddSlotTwice(blocks: seq<ContentBlock>, html: bool, s: Slot, text: string, parse: string -> Option<Value>)
    requires IsStreamBlock(s.block, html) && StreamText(s.block) != "" && text != ""
    ensures AddSlot(blocks, Extend(s, if html then HtmlSourceDelta(text) else TextDelta(text)), parse)
         == AddText(AddSlot(blocks, s, parse), html, text)
  {
    AddTextTwice(blocks, html, StreamText(s.block), text);
  }

  // ---------------------------------------------------------------------------------------------
  // Whole runs
  // ---------------------------------------------------------------------------------------------

  function LastReason(events: seq<UpEvent>): Option<StopReason> {
    if events == [] then None else
      var last := events[|events| - 1];
      if last.UpMessageDelta? && last.stopReason.Some? then Some(StopReasonFromStr(last.stopReason.value))
      else LastReason(events[..|events| - 1])
  }

  /** The last reason that was reported, as it was reported. */
  function LastReported(events: seq<UpEvent>): Option<string> {
    if events == [] then None else
      var last := events[|events| - 1];
      if last.UpMessageDelta? && last.stopReason.Some? then last.stopReason else LastReported(events[..|events| - 1])
  }

  /** The reply means the last reason reported; without one the turn has ended. */
  lemma {:induction false} ReasonReported(events: seq<UpEvent>)
    ensures match LastReported(events)
            case None => LastReason(events) == None
            case Some(s) => LastReason(events).Some? && Means(LastReason(events).value, s)
  {
    hide StopReasonFromStr, Means;
    if events != [] {
      ReasonReported(events[..|events| - 1]);
    }
  }

  function LastSequence(events: seq<UpEvent>): Option<string> {
    if events == [] then None else
      var last := events[|events| - 1];
      if last.UpMessageDelta? && last.stopSequence.Some? then last.stopSequence
      else LastSequence(events[..|events| - 1])
  }

  function LastStart(events: seq<UpEvent>): (r: Option<UpEvent>)
    ensures r.Some? ==> r.value.UpMessageStart?
  {
    if events == [] then None else
      var last := events[|events| - 1];
      if last.UpMessageStart? then Some(last) else LastStart(events[..|events| - 1])
  }

  /** A message has begun exactly when its start was heard. */
  lemma {:induction false} Begun(events: seq<UpEvent>, parse: string -> Option<Value>)
    requires WellFormed(events, parse)
    ensures HearAll(QUIET, events, parse).value.phase.Idle? <==> LastStart(events).None?
  {
    hide Feed, EndOfText;
    if events != [] {
      var n := |events| - 1;
      assert events == events[..n] + [events[n]];
      HearAllSnoc(QUIET, events[..n], events[n], parse);
      Begun(events[..n], parse);
    }
  }

  /** The output tokens announced. */
  function Announced(events: seq<UpEvent>): nat {
    if events == [] then 0 else
      var last := events[|events| - 1];
      Announced(events[..|events| - 1]) + if last.UpMessageDelta? then GetOr(last.usageDelta.outputTokens, 0) else 0
  }

  /** What a client is told of the message. */
  function MetaTold(events: seq<UpEvent>): Meta {
    match LastStart(events)
    case None => NO_META
    case Some(m) => Meta(m.id, m.model, Announced(events), LastReason(events), LastSequence(events))
  }

  /** The content of the reply: what was said, or, when that is nothing, whatever was told of each upstream
      block. */
  function Reply(events: seq<UpEvent>, said: seq<Item>, parse: string -> Option<Value>)
    : Result<seq<ContentBlock>, ProviderError>
  {
    if Assemble(said) != [] then Ok(Assemble(said)) else Fallback(AllTold(events), parse)
  }

  /** The reply in full. */
  function Outcome(events: seq<UpEvent>, said: seq<Item>, parse: string -> Option<Value>)
    : Result<CompleteResponse, ProviderError>
  {
    match LastStart(events)
    case None => Err(Internal("stream decode error: missing message_start"))
    case Some(m) =>
      match Reply(events, said, parse)
      case Err(e) => Err(e)
      case Ok(c) => Ok(Response(m, c, events))
  }

  /** Which deltas can come next: those for a block that was started. */
  ghost predicate Heeded(blocks: seq<BlockState>, used: set<nat>, events: seq<UpEvent>) {
    blocks == AllTold(events) && forall i: nat :: Told(events, i).Some? <==> i in used
  }

  lemma HeededNext(blocks: seq<BlockState>, u: Upstream, events: seq<UpEvent>, e: UpEvent,
                   parse: string -> Option<Value>)
    requires Heeded(blocks, u.used, events) && KeepsRaw(blocks, u.used, u.raw) && Hear(u, e, parse).Some?
    requires PendingUsed(u)
    ensures Heeded(SlotsAfter(blocks, e), Hear(u, e, parse).value.used, events + [e])
    ensures PendingUsed(Hear(u, e, parse).value)
  {
    hide StateAfter, StateStarted, Feed, AllTold, SlotsAfter, Hear, KeepsRaw, PendingUsed, Told, Width;
    HearUses(blocks, u, e, parse);
    if e.UpBlockDelta? {
      ToldBeyond(events, e.index);
    }
    AllToldSnoc(events, e);
  }

  /** A delta is for a block that was started, and only a start uses an index. */
  lemma HearUses(blocks: seq<BlockState>, u: Upstream, e: UpEvent, parse: string -> Option<Value>)
    requires Hear(u, e, parse).Some? && PendingUsed(u)
    ensures Hear(u, e, parse).value.used == u.used + (if e.UpBlockStart? then {e.index} else {})
    ensures PendingUsed(Hear(u, e, parse).value)
    ensures e.UpBlockDelta? ==> e.index in u.used
  {
    hide Feed, Closing;
  }

  lemma HearFirst(u: Upstream, events: seq<UpEvent>, parse: string -> Option<Value>)
    requires HearAll(u, events, parse).Some? && events != []
    ensures Hear(u, events[0], parse).Some?
    ensures HearAll(Hear(u, events[0], parse).value, events[1..], parse) == HearAll(u, events, parse)
  {
  }

  /** Consume a whole stream.  For every well-formed upstream run: the emitted events are strictly
      bracketed; what was said, assembled, is also what a client rebuilds, normalised; and the reply is
      `Reply` with the identity and usage of the message start, the reasons last reported and the output
      tokens announced, saturated. */
  method ConsumeSse(parse: string -> Option<Value>, upstream: seq<UpEvent>)
    returns (events: seq<StreamEvent>, result: Result<CompleteResponse, ProviderError>)
    requires WellFormed(upstream, parse)
    ensures var u := HearAll(QUIET, upstream, parse).value;
            var w := Replay(true, START, events);
            && w.Some? && w.value.phase == u.phase && StopsOk(w.value)
            && (u.pending.Nothing? ==> NoneOpen(w.value.slots))
            && Normalized(w.value.slots, parse) == Assemble(u.said)
            && (u.phase.Idle? <==> LastStart(upstream).None?)
            && result == Outcome(upstream, u.said, parse)
            && w.value.meta == MetaTold(upstream) && (result.Ok? ==> Tells(w.value.meta, result.value))
            && ToolSlots(w.value.slots) == u.tools
    ensures result.Ok? ==>
              match LastReported(upstream)
              case None => result.value.stopReason == EndTurn
              case Some(s) => Means(result.value.stopReason, s)
    ensures var u := HearAll(QUIET, upstream, parse).value;
            Assemble(u.said) == [] && u.used == {0} && 0 in u.raw ==>
              Reply(upstream, u.said, parse) == Ok([TextBlock(u.raw[0])])
  {
    hide Means;
    hide Replay, Normalized, Assemble, Hear, Held, StopReasonFromStr, AllTold, SlotsAfter, Heeded, Fallback, KeepsRaw;
    hide Follows, OneOpen, HearAll;
    var acc := new Accumulator(parse);
    NothingHeeded();
    events := ConsumeAll(acc, upstream);
    result := acc.Finish();
    StopsExact(true, START, events);
    HeededAll(acc.blocks, acc.up.used, upstream);
    ReasonReported(upstream);
    SingleText(acc.blocks, acc.up.used, acc.up.raw, parse);
    if acc.up.pending.Nothing? {
      NothingIsOpen(acc.blocks, acc.upstreamToLocal, acc.currentLocalBlock, acc.wire.slots);
    }
  }

  /** The loop of `consume_sse`. */
  method ConsumeAll(acc: Accumulator, upstream: seq<UpEvent>) returns (events: seq<StreamEvent>)
    requires acc.Valid() && acc.up == QUIET && acc.wire == START && acc.blocks == []
    requires acc.stopReason == None && acc.stopSequence == None && acc.usage == NO_USAGE
    requires WellFormed(upstream, acc.parse)
    modifies acc, acc.fenceParser
    ensures acc.Valid() && Replay(true, START, events) == Some(acc.wire)
    ensures Some(acc.up) == HearAll(QUIET, upstream, acc.parse)
    ensures acc.stopReason == LastReason(upstream) && acc.stopSequence == LastSequence(upstream)
    ensures acc.wire.meta == MetaTold(upstream)
    ensures Heeded(acc.blocks, acc.up.used, upstream)
    ensures Identified(acc.id, acc.model, acc.usage, LastStart(upstream))
  {
    hide Replay, Hear, Accumulator.Coherent, Held, StopReasonFromStr, AllTold, SlotsAfter, Heeded, MetaTold, Amended;
    events := [];
    ReplayNothing(true, START);
    NothingHeeded();
    var k := 0;
    assert upstream[0..] == upstream && upstream[..0] == [];
    while k < |upstream|
      invariant 0 <= k <= |upstream|
      invariant acc.Valid() && (acc.fenceParser == old(acc.fenceParser) || fresh(acc.fenceParser))
      invariant HearAll(acc.up, upstream[k..], acc.parse).Some?
      invariant HearAll(acc.up, upstream[k..], acc.parse) == HearAll(QUIET, upstream, acc.parse)
      invariant Replay(true, START, events) == Some(acc.wire)
      invariant acc.stopReason == LastReason(upstream[..k]) && acc.stopSequence == LastSequence(upstream[..k])
      invariant acc.wire.meta == MetaTold(upstream[..k])
      invariant acc.up.phase.Idle? <==> LastStart(upstream[..k]).None?
      invariant acc.up.phase.Idle? ==> Announced(upstream[..k]) == 0
      invariant Heeded(acc.blocks, acc.up.used, upstream[..k]) && PendingUsed(acc.up)
      invariant Identified(acc.id, acc.model, acc.usage, LastStart(upstream[..k]))
    {
      ghost var ev, was := upstream[k], acc.usage;
      HearFirst(acc.up, upstream[k..], acc.parse);
      acc.RawKept();
      HeededNext(acc.blocks, acc.up, upstream[..k], ev, acc.parse);
      MetaNext(acc.up, upstream[..k], ev, acc.parse);
      assert upstream[..k + 1] == upstream[..k] + [ev];
      assert upstream[k..][1..] == upstream[k + 1..];
      assert upstream[..k + 1][..k] == upstream[..k];
      var evs := acc.Consume(upstream[k]);
      ReplayJoin(true, START, events, evs);
      events := events + evs;
      k := k + 1;
    }
    assert upstream[..k] == upstream && upstream[k..] == [];
  }

  /** What one more event adds to what the client is told of the message. */
  lemma MetaNext(u: Upstream, events: seq<UpEvent>, e: UpEvent, parse: string -> Option<Value>)
    requires Hear(u, e, parse).Some? && (u.phase.Idle? <==> LastStart(events).None?)
    requires u.phase.Idle? ==> Announced(events) == 0 && LastReason(events) == None && LastSequence(events) == None
    ensures var more := events + [e];
            && (Hear(u, e, parse).value.phase.Idle? <==> LastStart(more).None?)
            && (Hear(u, e, parse).value.phase.Idle? ==> Announced(more) == 0)
            && MetaTold(more) == match e
                                 case UpMessageStart(_, _, _, _, _) => Meta(e.id, e.model, 0, None, None)
                                 case UpMessageDelta(_, _, d) =>
                                   Amended(MetaTold(events), LastReason(more), LastSequence(more), d)
                                 case _ => MetaTold(events)
  {
    hide StopReasonFromStr, Feed;
    assert (events + [e])[..|events|] == events;
  }

  /** Identity and usage are those of the message start, output tokens aside. */
  predicate Identified(id: Option<string>, model: Option<string>, usage: Usage, start: Option<UpEvent>) {
    if start.None? then id.None? && usage == NO_USAGE.(outputTokens := usage.outputTokens)
    else
      var m := start.value;
      && m.UpMessageStart? && id == Some(m.id) && model == Some(m.model)
      && usage == Usage(m.inputTokens, usage.outputTokens, m.cacheCreation, m.cacheRead)
  }

  predicate PendingUsed(u: Upstream) {
    !u.pending.Nothing? ==> u.pending.index in u.used
  }

  lemma NothingIsOpen(blocks: seq<BlockState>, toLocal: map<nat, nat>, cur: Option<LocalBlock>, slots: seq<Slot>)
    requires Follows(Nothing, blocks, toLocal, cur, slots) && OneOpen(slots, cur)
    ensures NoneOpen(slots)
  {
  }

  /** The reply to a message begun by `m`. */
  function Response(m: UpEvent, content: seq<ContentBlock>, events: seq<UpEvent>): CompleteResponse
    requires m.UpMessageStart?
  {
    var tokens := Announced(events);
    CompleteResponse(m.id, m.model, content, GetOr(LastReason(events), EndTurn), LastSequence(events),
                     Usage(m.inputTokens, if tokens < MAX_U32 then tokens else MAX_U32, m.cacheCreation, m.cacheRead))
  }

  lemma NothingHeeded()
    ensures Heeded([], {}, []) && MetaTold([]) == NO_META
  {
  }

  lemma HeededAll(blocks: seq<BlockState>, used: set<nat>, events: seq<UpEvent>)
    requires Heeded(blocks, used, events)
    ensures blocks == AllTold(events)
  {
  }

  /** With a single text block at index 0, the fallback is its raw text. */
  lemma SingleText(blocks: seq<BlockState>, used: set<nat>, raw: map<nat, string>, parse: string -> Option<Value>)
    requires KeepsRaw(blocks, used, raw)
    ensures used == {0} && 0 in raw ==> Fallback(blocks, parse) == Ok([TextBlock(raw[0])])
  {
    if used == {0} && 0 in raw {
      assert 0 in used;
      assert blocks == [TextState(raw[0])];
      assert Fallback(blocks[1..], parse) == Ok([]);
      assert [TextBlock(raw[0])] + [] == [TextBlock(raw[0])];
    }
  }
}
