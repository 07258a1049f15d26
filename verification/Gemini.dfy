/** The Gemini stream adapter (crates/provider-gemini/src/stream.rs). */
module Gemini {
  import opened Base
  import opened Fence
  import opened Spp

  datatype FunctionCall = FunctionCall(name: string, args: Value)
  datatype InlineData = InlineData(mimeType: string, data: string)
  datatype Part = Part(
    text: Option<string>, thought: Option<bool>, thoughtSignature: Option<string>,
    inlineData: Option<InlineData>, functionCall: Option<FunctionCall>)
  datatype Candidate = Candidate(parts: seq<Part>, finishReason: Option<string>)
  datatype UsageMetadata = UsageMetadata(promptTokenCount: nat, candidatesTokenCount: Option<nat>,
                                         cachedContentTokenCount: Option<nat>)
  datatype Response = Response(
    responseId: Option<string>, modelVersion: Option<string>, usage: Option<UsageMetadata>, candidates: seq<Candidate>)

  function StopReasonFromGemini(s: string): (r: StopReason)
    ensures r == EndTurn <==> s == "STOP"
    ensures r == MaxTokens <==> s == "MAX_TOKENS"
    ensures r == Refusal <==> s in {"SAFETY", "RECITATION", "BLOCKLIST", "PROHIBITED_CONTENT", "SPII", "IMAGE_SAFETY"}
    ensures r in {EndTurn, MaxTokens, Refusal, Other}
  {
    if s == "STOP" then EndTurn
    else if s == "MAX_TOKENS" then MaxTokens
    else if s in {"SAFETY", "RECITATION", "BLOCKLIST", "PROHIBITED_CONTENT", "SPII", "IMAGE_SAFETY"} then Refusal
    else Other
  }

  function SynthesizeToolUseId(name: string, index: nat): string {
    "gemini-" + name + "-" + Decimal(index)
  }

  function MediaTypeOf(mime: string): (m: MediaType)
    ensures m == Jpeg <==> mime == "image/jpeg"
    ensures m == Gif <==> mime == "image/gif"
    ensures m == Webp <==> mime == "image/webp"
  {
    if mime == "image/jpeg" then Jpeg
    else if mime == "image/gif" then Gif
    else if mime == "image/webp" then Webp
    else Png
  }

  // ---------------------------------------------------------------------------------------------
  // What a run of parts says
  // ---------------------------------------------------------------------------------------------

  datatype Heard =
    | Said(sym: Sym)
    | Thought(text: string, signature: Option<string>)
    | Called(call: FunctionCall)
    | Shown(picture: InlineData)

  /** Finished blocks, the one block still growing, and the number of calls so far. */
  datatype Reply = Reply(done: seq<ContentBlock>, open: Option<ContentBlock>, calls: nat)

  const SILENCE := Reply([], None, 0)

  function Opened(r: Reply, b: ContentBlock): Reply {
    Reply(if r.open.Some? then r.done + [r.open.value] else r.done, Some(b), r.calls)
  }

  /** Text extends the growing block when that has its kind; otherwise it finishes it. */
  function HearText(r: Reply, html: bool, s: string): Reply {
    if r.open.Some? && IsStreamBlock(r.open.value, html)
    then r.(open := Some(StreamBlock(html, StreamText(r.open.value) + s)))
    else Opened(r, StreamBlock(html, s))
  }

  function HearThought(r: Reply, text: string, signature: Option<string>): Reply {
    if r.open.Some? && r.open.value.Thinking?
    then r.(open := Some(Thinking(r.open.value.text + text,
                                  if signature.Some? then signature else r.open.value.signature)))
    else Opened(r, Thinking(text, signature))
  }

  /** A call or a picture is finished at once and leaves the growing block alone. */
  function Hear(r: Reply, h: Heard): Reply {
    match h
    case Said(sym) => HearText(r, sym.html, [sym.c])
    case Thought(text, signature) => HearThought(r, text, signature)
    case Called(fc) =>
      Reply(r.done + [ToolUse(SynthesizeToolUseId(fc.name, r.calls), fc.name, fc.args)], r.open, r.calls + 1)
    case Shown(p) => r.(done := r.done + [Image(MediaTypeOf(p.mimeType), p.data)])
  }

  function HearAll(r: Reply, hs: seq<Heard>): Reply {
    if hs == [] then r else Hear(HearAll(r, hs[..|hs| - 1]), hs[|hs| - 1])
  }

  function Saids(syms: seq<Sym>): (r: seq<Heard>)
    ensures |r| == |syms|
  {
    seq(|syms|, i requires 0 <= i < |syms| => Said(syms[i]))
  }

  /** What one part says, given the state of the fence parser. */
  function PartHeard(buf: string, inside: bool, part: Part): seq<Heard> {
    if part.functionCall.Some? then [Called(part.functionCall.value)]
    else if part.inlineData.Some? then [Shown(part.inlineData.value)]
    else if part.text.None? then []
    else if part.thought == Some(true) then [Thought(part.text.value, part.thoughtSignature)]
    else Saids(Feed(buf + part.text.value, inside).out)
  }

  predicate IsPlainText(part: Part) {
    part.functionCall.None? && part.inlineData.None? && part.text.Some? && part.thought != Some(true)
  }

  /** The fence parser after the part; only plain text reaches it. */
  function FenceAfter(buf: string, inside: bool, part: Part): Fed {
    if IsPlainText(part) then Feed(buf + part.text.value, inside) else Fed([], buf, inside)
  }

  function HeardFrom(buf: string, inside: bool, parts: seq<Part>): seq<Heard>
    decreases |parts|
  {
    if parts == [] then Saids(EndOfText(buf, inside).out) else
      var f := FenceAfter(buf, inside, parts[0]);
      PartHeard(buf, inside, parts[0]) + HeardFrom(f.buf, f.inside, parts[1..])
  }

  function ChunkParts(chunk: Response): seq<Part> {
    if chunk.candidates == [] then [] else chunk.candidates[0].parts
  }

  function AllParts(chunks: seq<Response>): seq<Part> {
    if chunks == [] then [] else ChunkParts(chunks[0]) + AllParts(chunks[1..])
  }

  function Finished(r: Reply): seq<ContentBlock> {
    if r.open.Some? then r.done + [r.open.value] else r.done
  }

  /** The content of the reply. */
  function Content(chunks: seq<Response>): seq<ContentBlock> {
    Finished(HearAll(SILENCE, HeardFrom("", false, AllParts(chunks))))
  }

  lemma HearAllOne(r: Reply, hs: seq<Heard>, h: Heard)
    ensures HearAll(r, hs + [h]) == Hear(HearAll(r, hs), h)
  {
    hide Hear;
    assert (hs + [h])[..|hs|] == hs;
  }

  lemma HearTextTwice(r: Reply, html: bool, a: string, b: string)
    ensures HearText(HearText(r, html, a), html, b) == HearText(r, html, a + b)
  {
    if r.open.Some? && IsStreamBlock(r.open.value, html) {
      assert StreamText(r.open.value) + a + b == StreamText(r.open.value) + (a + b);
    }
  }

  lemma {:induction false} HearString(r: Reply, hs: seq<Heard>, html: bool, s: string)
    requires s != ""
    ensures HearAll(r, hs + Saids(Tag(html, s))) == HearText(HearAll(r, hs), html, s)
  {
    hide HearText;
    var init, c := s[..|s| - 1], s[|s| - 1];
    assert s == init + [c];
    var before := hs + Saids(Tag(html, init));
    assert hs + Saids(Tag(html, s)) == before + [Said(Sym(html, c))];
    HearAllOne(r, before, Said(Sym(html, c)));
    if init == "" {
      assert before == hs && s == [c];
    } else {
      HearString(r, hs, html, init);
      HearTextTwice(HearAll(r, hs), html, init, [c]);
    }
  }

  // ---------------------------------------------------------------------------------------------
  // The client's view
  // ---------------------------------------------------------------------------------------------

  /** The slot vector against the client's view: a slot is occupied exactly while its block is
      open, and the finished blocks are the closed ones in the order of their Stops. */
  predicate Tied(blocks: seq<Option<ContentBlock>>, finals: seq<ContentBlock>, w: Wire) {
    && |w.slots| == |blocks| && |w.stops| == |finals|
    && (forall i :: 0 <= i < |blocks| ==> w.slots[i].json == "" && w.slots[i].open == blocks[i].Some?)
    && (forall i :: 0 <= i < |blocks| && blocks[i].Some? ==> w.slots[i].block == blocks[i].value)
    && (forall k :: 0 <= k < |finals| ==> w.stops[k] < |w.slots| && !w.slots[w.stops[k]].open)
    && (forall k :: 0 <= k < |finals| ==> w.slots[w.stops[k]].block == finals[k])
  }

  /** `open` is the one occupied slot, and holds a block that grows. */
  predicate OnlyOpen(blocks: seq<Option<ContentBlock>>, open: Option<nat>) {
    && (forall i :: 0 <= i < |blocks| ==> (blocks[i].Some? <==> open == Some(i)))
    && (open.Some? ==> open.value < |blocks| && Grows(blocks[open.value].value))
  }

  predicate Grows(b: ContentBlock) {
    b.TextBlock? || b.HtmlBlock? || b.Thinking?
  }

  lemma StartTied(blocks: seq<Option<ContentBlock>>, finals: seq<ContentBlock>, w: Wire, b: ContentBlock)
    requires Tied(blocks, finals, w) && w.phase.Streaming?
    ensures var v := Apply(false, w, ContentBlockStart(|blocks|, b));
            v.Some? && v.value.phase.Streaming? && v.value.meta == w.meta && Tied(blocks + [Some(b)], finals, v.value)
  {
  }

  lemma DeltaTied(blocks: seq<Option<ContentBlock>>, finals: seq<ContentBlock>, w: Wire, i: nat, d: BlockDelta)
    requires Tied(blocks, finals, w) && w.phase.Streaming? && i < |blocks| && blocks[i].Some?
    requires Fits(blocks[i].value, d) && !d.InputJsonDelta?
    ensures var v := Apply(false, w, ContentBlockDelta(i, d));
            v.Some? && v.value.phase.Streaming? && v.value.meta == w.meta
            && Tied(blocks[i := Some(Extend(Slot(blocks[i].value, "", true), d).block)], finals, v.value)
  {
  }

  lemma StopTied(blocks: seq<Option<ContentBlock>>, finals: seq<ContentBlock>, w: Wire, i: nat)
    requires Tied(blocks, finals, w) && w.phase.Streaming? && i < |blocks| && blocks[i].Some?
    ensures var v := Apply(false, w, ContentBlockStop(i));
            v.Some? && v.value.phase.Streaming? && v.value.meta == w.meta
            && Tied(blocks[i := None], finals + [blocks[i].value], v.value)
  {
  }

  // ---------------------------------------------------------------------------------------------
  // The accumulator.  `BlockState` has the cases and fields of a content block and is modelled by it.
  // ---------------------------------------------------------------------------------------------

  lemma StartsMessage(blocks: seq<Option<ContentBlock>>, finals: seq<ContentBlock>, w: Wire, e: StreamEvent)
    requires w.phase.Idle? && e.MessageStart? && Tied(blocks, finals, w)
    ensures var v := w.(phase := Streaming, meta := Introduced(e.id, e.model, e.usage));
            Tied(blocks, finals, v) && Replay(false, w, [e]) == Some(v)
  {
    ReplayOne(false, w, e);
  }

  class Accumulator {
    var started: bool
    var id: Option<string>
    var model: Option<string>
    var usage: Usage
    var stopReason: Option<StopReason>
    var sawFunctionCall: bool
    var blocks: seq<Option<ContentBlock>>
    var toolUseCounter: nat
    var finalBlocks: seq<ContentBlock>
    var fenceParser: FenceParser

    /** What was heard, the slot of the growing block, and what a client has rebuilt from every
        event emitted so far. */
    ghost var heard: seq<Heard>
    ghost var open: Option<nat>
    ghost var wire: Wire

    ghost function Growing(): Option<ContentBlock>
      reads `open, `blocks
    {
      if open.Some? && open.value < |blocks| then blocks[open.value] else None
    }

    /** The reply assembled so far. */
    ghost function Assembled(): Reply
      reads `open, `blocks, `finalBlocks, `toolUseCounter
    {
      Reply(finalBlocks, Growing(), toolUseCounter)
    }

    ghost predicate Tidy()
      reads `open, `blocks, `finalBlocks, `wire
    {
      Tied(blocks, finalBlocks, wire) && OnlyOpen(blocks, open)
    }

    ghost predicate Coherent()
      reads `open, `blocks, `finalBlocks, `wire, `toolUseCounter, `heard
    {
      Tidy() && Assembled() == HearAll(SILENCE, heard)
    }

    ghost predicate Valid()
      reads this, fenceParser
    {
      && Coherent() && fenceParser.Valid()
      && wire.phase == (if started then Streaming else Idle)
      && (!started ==> fenceParser.buf == "" && blocks == [] && usage == NO_USAGE && wire.meta == NO_META)
    }

    constructor ()
      ensures Valid() && fresh(fenceParser)
      ensures !started && heard == [] && wire == START && stopReason == None && usage == NO_USAGE && !sawFunctionCall
      ensures fenceParser.buf == "" && !fenceParser.insideCanvas
    {
      started, id, model, usage, stopReason := false, None, None, NO_USAGE, None;
      sawFunctionCall, blocks, toolUseCounter, finalBlocks := false, [], 0, [];
      fenceParser := new FenceParser();
      heard, open, wire := [], None, START;
    }

    /** The most recently opened block that is still growing, found from the back. */
    method LastOpenBlock() returns (r: Option<nat>)
      requires OnlyOpen(blocks, open)
      ensures r == open
    {
      var i: nat := |blocks|;
      while i > 0
        invariant 0 <= i <= |blocks|
        invariant forall j :: i <= j < |blocks| ==> blocks[j].None?
      {
        i := i - 1;
        if blocks[i].Some? {
          return if Grows(blocks[i].value) then Some(i) else None;
        }
      }
      return None;
    }

    /** Take the block out of its slot and finish it, with its Stop unless that was sent already. */
    method CloseBlock(idx: nat, alreadyEmittedStop: bool) returns (out: seq<StreamEvent>)
      requires idx < |blocks| && blocks[idx].Some? && wire.phase.Streaming?
      requires if alreadyEmittedStop then Tied(blocks[idx := None], finalBlocks + [blocks[idx].value], wire)
               else Tied(blocks, finalBlocks, wire)
      modifies this`blocks, this`finalBlocks, this`wire
      ensures wire.phase.Streaming? && Tied(blocks, finalBlocks, wire)
      ensures blocks == old(blocks)[idx := None] && finalBlocks == old(finalBlocks) + [old(blocks)[idx].value]
      ensures Replay(false, old(wire), out) == Some(wire) && wire.meta == old(wire.meta)
    {
      hide Apply, Replay, Tied;
      out := [];
      ReplayNothing(false, wire);
      var block := blocks[idx].value;
      if !alreadyEmittedStop {
        StopTied(blocks, finalBlocks, wire, idx);
        ReplayOne(false, wire, ContentBlockStop(idx));
        out := [ContentBlockStop(idx)];
        wire := Apply(false, wire, ContentBlockStop(idx)).value;
      }
      blocks := blocks[idx := None];
      finalBlocks := finalBlocks + [block];
    }

    method CloseLastOpen() returns (out: seq<StreamEvent>)
      requires Tidy() && wire.phase.Streaming?
      modifies this`blocks, this`finalBlocks, this`wire, this`open
      ensures Tidy() && open == None && wire.phase.Streaming? && |blocks| == old(|blocks|)
      ensures finalBlocks == old(Finished(Assembled()))
      ensures Replay(false, old(wire), out) == Some(wire) && wire.meta == old(wire.meta)
    {
      hide Replay, Tied;
      out := [];
      ReplayNothing(false, wire);
      var i: nat := |blocks|;
      while i > 0 && blocks[i - 1].None?
        invariant 0 <= i <= |blocks|
        invariant forall j :: i <= j < |blocks| ==> blocks[j].None?
        modifies {}
      {
        i := i - 1;
      }
      if i > 0 {
        out := CloseBlock(i - 1, false);
        open := None;
      }
    }

    /** Start a growing block in a new slot, after finishing the one that was growing. */
    method OpenBlock(start: ContentBlock) returns (idx: nat, out: seq<StreamEvent>)
      requires Tidy() && wire.phase.Streaming? && Grows(start)
      modifies this`blocks, this`finalBlocks, this`wire, this`open
      ensures Tidy() && wire.phase.Streaming? && open == Some(idx) && blocks[idx] == Some(start)
      ensures Assembled() == Opened(old(Assembled()), start)
      ensures Replay(false, old(wire), out) == Some(wire) && wire.meta == old(wire.meta)
    {
      hide Apply, Replay, Tied;
      out := CloseLastOpen();
      idx := |blocks|;
      StartTied(blocks, finalBlocks, wire, start);
      ReplayNext(false, old(wire), out, wire, ContentBlockStart(idx, start));
      out := out + [ContentBlockStart(idx, start)];
      wire := Apply(false, wire, ContentBlockStart(idx, start)).value;
      blocks := blocks + [Some(start)];
      open := Some(idx);
    }

    /** Send a delta for the growing block and apply it. */
    method Grow(idx: nat, delta: BlockDelta) returns (out: seq<StreamEvent>)
      requires Tidy() && wire.phase.Streaming? && open == Some(idx)
      requires Fits(blocks[idx].value, delta) && !delta.InputJsonDelta?
      modifies this`blocks, this`wire
      ensures Tidy() && wire.phase.Streaming?
      ensures Assembled()
           == old(Assembled()).(open := Some(Extend(Slot(old(blocks)[idx].value, "", true), delta).block))
      ensures Replay(false, old(wire), out) == Some(wire) && wire.meta == old(wire.meta)
    {
      hide Apply, Replay, Tied;
      DeltaTied(blocks, finalBlocks, wire, idx, delta);
      ReplayOne(false, wire, ContentBlockDelta(idx, delta));
      out := [ContentBlockDelta(idx, delta)];
      wire := Apply(false, wire, ContentBlockDelta(idx, delta)).value;
      blocks := blocks[idx := Some(Extend(Slot(blocks[idx].value, "", true), delta).block)];
    }

    /** One fence chunk, of text or of html. */
    method EmitStreamChunk(html: bool, text: string) returns (out: seq<StreamEvent>)
      requires Coherent() && wire.phase.Streaming? && text != ""
      modifies this`blocks, this`finalBlocks, this`wire, this`open, this`heard
      ensures Coherent() && wire.phase.Streaming? && heard == old(heard) + Saids(Tag(html, text))
      ensures Replay(false, old(wire), out) == Some(wire) && wire.meta == old(wire.meta)
    {
      hide Replay, HearAll, Tied, Saids, Tag;
      HearString(SILENCE, heard, html, text);
      ghost var w0 := wire;
      var last := LastOpenBlock();
      out := [];
      ReplayNothing(false, wire);
      var idx: nat;
      if last.None? || !IsStreamBlock(blocks[last.value].value, html) {
        idx, out := OpenBlock(StreamBlock(html, ""));
        assert "" + text == text;
      } else {
        idx := last.value;
      }
      var evs := Grow(idx, if html then HtmlSourceDelta(text) else TextDelta(text));
      ReplayJoin(false, w0, out, evs);
      out := out + evs;
      heard := heard + Saids(Tag(html, text));
    }

    method EmitThinkingFragment(text: string, signature: Option<string>) returns (out: seq<StreamEvent>)
      requires Coherent() && wire.phase.Streaming?
      modifies this`blocks, this`finalBlocks, this`wire, this`open, this`heard
      ensures Coherent() && wire.phase.Streaming? && heard == old(heard) + [Thought(text, signature)]
      ensures Replay(false, old(wire), out) == Some(wire) && wire.meta == old(wire.meta)
    {
      hide Replay, HearAll, Tied;
      HearAllOne(SILENCE, heard, Thought(text, signature));
      ghost var w0 := wire;
      var last := LastOpenBlock();
      if last.Some? && blocks[last.value].value.Thinking? {
        out := [];
        ReplayNothing(false, wire);
        if signature.Some? {
          out := Grow(last.value, SignatureDelta(signature.value));
        }
        var evs := Grow(last.value, ThinkingDelta(text));
        ReplayJoin(false, w0, out, evs);
        out := out + evs;
      } else {
        var idx: nat;
        idx, out := OpenBlock(Thinking("", signature));
        if text != "" {
          var evs := Grow(idx, ThinkingDelta(text));
          ReplayJoin(false, w0, out, evs);
          out := out + evs;
          assert "" + text == text;
        }
      }
      heard := heard + [Thought(text, signature)];
    }

    /** A block that arrives whole: started and stopped in a slot of its own, next to the growing one. */
    method EmitWhole(block: ContentBlock) returns (out: seq<StreamEvent>)
      requires Tidy() && wire.phase.Streaming? && !Grows(block)
      modifies this`blocks, this`finalBlocks, this`wire
      ensures Tidy() && wire.phase.Streaming?
      ensures Assembled() == old(Assembled()).(done := old(finalBlocks) + [block])
      ensures Replay(false, old(wire), out) == Some(wire) && wire.meta == old(wire.meta)
    {
      hide Apply, Replay, Tied;
      var idx := |blocks|;
      ghost var w0 := wire;
      StartTied(blocks, finalBlocks, wire, block);
      ReplayOne(false, w0, ContentBlockStart(idx, block));
      out := [ContentBlockStart(idx, block)];
      wire := Apply(false, wire, ContentBlockStart(idx, block)).value;
      StopTied(blocks + [Some(block)], finalBlocks, wire, idx);
      ReplayNext(false, w0, out, wire, ContentBlockStop(idx));
      out := out + [ContentBlockStop(idx)];
      wire := Apply(false, wire, ContentBlockStop(idx)).value;
      blocks := blocks + [Some(block)];
      var evs := CloseBlock(idx, true);
      ReplayJoin(false, w0, out, evs);
      out := out + evs;
    }

    method EmitFenceChunks(chunks: seq<FenceChunk>) returns (out: seq<StreamEvent>)
      requires Coherent() && Canonical(chunks) && (chunks != [] ==> wire.phase.Streaming?)
      modifies this`blocks, this`finalBlocks, this`wire, this`open, this`heard
      ensures Coherent() && wire.phase == old(wire.phase) && heard == old(heard) + Saids(Flat(chunks))
      ensures chunks == [] ==> blocks == old(blocks)
      ensures Replay(false, old(wire), out) == Some(wire) && wire.meta == old(wire.meta)
    {
      hide Coherent, Replay;
      out := [];
      ghost var w0 := wire;
      ReplayNothing(false, w0);
      var k := 0;
      while k < |chunks|
        invariant 0 <= k <= |chunks|
        invariant Coherent() && wire.phase == w0.phase
        invariant k == 0 ==> blocks == old(blocks)
        invariant heard == old(heard) + Saids(Flat(chunks[..k]))
        invariant Replay(false, w0, out) == Some(wire) && wire.meta == w0.meta
      {
        var evs := EmitStreamChunk(chunks[k].Html?, chunks[k].payload);
        ReplayJoin(false, w0, out, evs);
        out := out + evs;
        assert chunks[..k + 1][..k] == chunks[..k];
        k := k + 1;
      }
      assert chunks[..k] == chunks;
    }

    /** A part is a function call, else inline data, else thinking, else text. */
    method ConsumePart(part: Part) returns (out: seq<StreamEvent>)
      requires Valid() && started
      modifies this`blocks, this`finalBlocks, this`wire, this`open, this`heard, this`sawFunctionCall,
               this`toolUseCounter, fenceParser
      ensures Valid()
      ensures heard == old(heard) + PartHeard(old(fenceParser.buf), old(fenceParser.insideCanvas), part)
      ensures var f := FenceAfter(old(fenceParser.buf), old(fenceParser.insideCanvas), part);
              fenceParser.buf == f.buf && fenceParser.insideCanvas == f.inside
      ensures sawFunctionCall == (old(sawFunctionCall) || part.functionCall.Some?)
      ensures Replay(false, old(wire), out) == Some(wire) && wire.meta == old(wire.meta)
    {
      hide HearAll, Replay, Feed, Held, Tied, Saids, SynthesizeToolUseId;
      out := [];
      ReplayNothing(false, wire);
      if part.functionCall.Some? {
        var fc := part.functionCall.value;
        HearAllOne(SILENCE, heard, Called(fc));
        sawFunctionCall := true;
        var id := SynthesizeToolUseId(fc.name, toolUseCounter);
        out := EmitWhole(ToolUse(id, fc.name, fc.args));
        toolUseCounter := toolUseCounter + 1;
        heard := heard + [Called(fc)];
      } else if part.inlineData.Some? {
        var inline := part.inlineData.value;
        HearAllOne(SILENCE, heard, Shown(inline));
        out := EmitWhole(Image(MediaTypeOf(inline.mimeType), inline.data));
        heard := heard + [Shown(inline)];
      } else if part.text.Some? {
        if part.thought == Some(true) {
          out := EmitThinkingFragment(part.text.value, part.thoughtSignature);
        } else {
          var chunks := fenceParser.Push(part.text.value);
          out := EmitFenceChunks(chunks);
        }
      }
    }

    /** All parts of a chunk in order; `rest` stands for the parts of later chunks. */
    method ConsumeParts(parts: seq<Part>, ghost rest: seq<Part>) returns (out: seq<StreamEvent>)
      requires Valid() && started
      modifies this`blocks, this`finalBlocks, this`wire, this`open, this`heard, this`sawFunctionCall,
               this`toolUseCounter, fenceParser
      ensures Valid()
      ensures old(heard) + HeardFrom(old(fenceParser.buf), old(fenceParser.insideCanvas), parts + rest)
                == heard + HeardFrom(fenceParser.buf, fenceParser.insideCanvas, rest)
      ensures sawFunctionCall == (old(sawFunctionCall) || exists p <- parts :: p.functionCall.Some?)
      ensures Replay(false, old(wire), out) == Some(wire) && wire.meta == old(wire.meta)
    {
      hide Replay, Coherent, Held, FenceAfter, PartHeard, EndOfText;
      out := [];
      ghost var w0, buf0, inside0 := wire, fenceParser.buf, fenceParser.insideCanvas;
      ReplayNothing(false, w0);
      var k := 0;
      assert parts[0..] == parts;
      while k < |parts|
        invariant 0 <= k <= |parts|
        invariant Valid() && fenceParser == old(fenceParser)
        invariant old(heard) + HeardFrom(buf0, inside0, parts + rest)
                    == heard + HeardFrom(fenceParser.buf, fenceParser.insideCanvas, parts[k..] + rest)
        invariant sawFunctionCall == (old(sawFunctionCall) || exists p <- parts[..k] :: p.functionCall.Some?)
        invariant Replay(false, w0, out) == Some(wire) && wire.meta == w0.meta
      {
        ghost var heard1, buf1, inside1 := heard, fenceParser.buf, fenceParser.insideCanvas;
        var evs := ConsumePart(parts[k]);
        HeardStep(heard1, buf1, inside1, parts[k], parts[k + 1..] + rest);
        assert [parts[k]] + (parts[k + 1..] + rest) == parts[k..] + rest;
        ReplayJoin(false, w0, out, evs);
        out := out + evs;
        assert parts[..k + 1] == parts[..k] + [parts[k]];
        k := k + 1;
      }
      assert parts[..k] == parts && parts[k..] == [];
      assert parts[k..] + rest == rest;
    }

    method CoerceToolUseStopReason()
      modifies this`stopReason
      ensures stopReason == if sawFunctionCall then Some(ToolTurn) else old(stopReason)
    {
      if !sawFunctionCall || stopReason == Some(ToolTurn) {
        return;
      }
      stopReason := Some(ToolTurn);
    }

    /** First chunk: announce the message; later ones refresh the prompt totals. */
    method Begin(chunk: Response) returns (events: seq<StreamEvent>)
      requires Valid()
      modifies this`started, this`id, this`model, this`usage, this`wire
      ensures Valid() && started && wire.phase.Streaming?
      ensures Replay(false, old(wire), events) == Some(wire)
      ensures usage.outputTokens == old(usage.outputTokens) && usage.cacheCreation == old(usage.cacheCreation)
      ensures wire.meta == if old(started) then old(wire.meta) else Meta(GetOr(id, ""), GetOr(model, ""), 0, None, None)
      ensures if old(started) then id == old(id) && model == old(model)
              else id == Some(GetOr(chunk.responseId, "gemini-response")) && model == chunk.modelVersion
      ensures usage.inputTokens == if chunk.usage.Some? && chunk.usage.value.promptTokenCount > old(usage.inputTokens)
                                   then chunk.usage.value.promptTokenCount else old(usage.inputTokens)
      ensures usage.cacheRead == if chunk.usage.Some? && chunk.usage.value.cachedContentTokenCount.Some?
                                 then chunk.usage.value.cachedContentTokenCount else old(usage.cacheRead)
    {
      hide Replay, Apply, HearAll, OnlyOpen, Held, Tied;
      events := [];
      ReplayNothing(false, wire);
      if !started {
        started := true;
        id := Some(GetOr(chunk.responseId, "gemini-response"));
        model := chunk.modelVersion;
        if chunk.usage.Some? {
          usage := usage.(inputTokens := chunk.usage.value.promptTokenCount,
                          cacheRead := chunk.usage.value.cachedContentTokenCount);
        }
        var start := MessageStart(GetOr(id, ""), GetOr(model, ""), usage);
        StartsMessage(blocks, finalBlocks, wire, start);
        events := [start];
        wire := wire.(phase := Streaming, meta := Introduced(GetOr(id, ""), GetOr(model, ""), usage));
      } else {
        Refresh(chunk);
      }
    }

    /** A later chunk can raise the prompt count and change the cached count. */
    method Refresh(chunk: Response)
      requires Valid() && started
      modifies this`usage
      ensures Valid()
      ensures usage == old(usage).(
        inputTokens := if chunk.usage.Some? && chunk.usage.value.promptTokenCount > old(usage.inputTokens)
                       then chunk.usage.value.promptTokenCount else old(usage.inputTokens),
        cacheRead := if chunk.usage.Some? && chunk.usage.value.cachedContentTokenCount.Some?
                     then chunk.usage.value.cachedContentTokenCount else old(usage.cacheRead))
    {
      hide Coherent, Held;
      if chunk.usage.Some? {
        if chunk.usage.value.promptTokenCount > usage.inputTokens {
          usage := usage.(inputTokens := chunk.usage.value.promptTokenCount);
        }
        if chunk.usage.value.cachedContentTokenCount.Some? {
          usage := usage.(cacheRead := chunk.usage.value.cachedContentTokenCount);
        }
      }
    }

    /** The end of a chunk: report usage and stop reason. */
    method Report(chunk: Response) returns (events: seq<StreamEvent>)
      requires wire.phase.Streaming? && Coherent()
      modifies this`usage, this`wire
      ensures Coherent()
      ensures wire == old(wire).(meta := Reported(old(wire.meta), chunk, stopReason,
                                                  Increase(old(usage.outputTokens), usage.outputTokens)))
      ensures Replay(false, old(wire), events) == Some(wire)
      ensures usage == if chunk.usage.Some? then old(usage).(outputTokens := CountOf(chunk.usage.value)) else old(usage)
    {
      hide HearAll, OnlyOpen;
      events := [];
      ReplayNothing(false, wire);
      if chunk.usage.Some? {
        var newOut := CountOf(chunk.usage.value);
        var deltaOut := Increase(usage.outputTokens, newOut);
        usage := usage.(outputTokens := newOut);
        if deltaOut > 0 || stopReason.Some? {
          var delta := UsageDelta(if deltaOut > 0 then Some(deltaOut) else None,
                                  chunk.usage.value.cachedContentTokenCount);
          events := [MessageDelta(stopReason, None, delta)];
          ReplayOne(false, wire, events[0]);
          wire := wire.(meta := Amended(wire.meta, stopReason, None, delta));
        }
      } else if stopReason.Some? && FinishReason(chunk).Some? {
        events := [MessageDelta(stopReason, None, UsageDelta(None, None))];
        ReplayOne(false, wire, events[0]);
        wire := wire.(meta := Amended(wire.meta, stopReason, None, UsageDelta(None, None)));
      }
    }

    method ConsumeChunk(chunk: Response, ghost rest: seq<Part>) returns (events: seq<StreamEvent>)
      requires Valid()
      modifies this, fenceParser
      ensures Valid() && started && fenceParser == old(fenceParser)
      ensures old(heard) + HeardFrom(old(fenceParser.buf), old(fenceParser.insideCanvas), ChunkParts(chunk) + rest)
                == heard + HeardFrom(fenceParser.buf, fenceParser.insideCanvas, rest)
      ensures Replay(false, old(wire), events) == Some(wire)
      ensures if old(started) then id == old(id) && model == old(model)
              else id == Some(GetOr(chunk.responseId, "gemini-response")) && model == chunk.modelVersion
      ensures sawFunctionCall == (old(sawFunctionCall) || exists p <- ChunkParts(chunk) :: p.functionCall.Some?)
      ensures stopReason == if sawFunctionCall then Some(ToolTurn)
                            else if FinishReason(chunk).Some? then FinishReason(chunk) else old(stopReason)
      ensures usage.outputTokens == if chunk.usage.Some? then CountOf(chunk.usage.value) else old(usage.outputTokens)
      ensures var m := if old(started) then old(wire.meta) else Meta(GetOr(id, ""), GetOr(model, ""), 0, None, None);
              wire.meta == Reported(m, chunk, stopReason, Increase(old(usage.outputTokens), usage.outputTokens))
      ensures usage.inputTokens == if chunk.usage.Some? && chunk.usage.value.promptTokenCount > old(usage.inputTokens)
                                   then chunk.usage.value.promptTokenCount else old(usage.inputTokens)
      ensures usage.cacheRead == if chunk.usage.Some? && chunk.usage.value.cachedContentTokenCount.Some?
                                 then chunk.usage.value.cachedContentTokenCount else old(usage.cacheRead)
      ensures usage.cacheCreation == old(usage.cacheCreation)
    {
      hide Replay, Coherent, Held, HeardFrom, FinishReason, CountOf, Increase;
      ghost var w0 := wire;
      events := Begin(chunk);
      var evs := ConsumeParts(ChunkParts(chunk), rest);
      ReplayJoin(false, w0, events, evs);
      events := events + evs;
      evs := Conclude(chunk);
      ReplayJoin(false, w0, events, evs);
      events := events + evs;
    }

    /** Behind the parts of a chunk: its finish reason, coerced, and its usage. */
    method Conclude(chunk: Response) returns (events: seq<StreamEvent>)
      requires Valid() && started
      modifies this`stopReason, this`usage, this`wire
      ensures Valid()
      ensures stopReason == if sawFunctionCall then Some(ToolTurn)
                            else if FinishReason(chunk).Some? then FinishReason(chunk) else old(stopReason)
      ensures Replay(false, old(wire), events) == Some(wire)
      ensures usage == if chunk.usage.Some? then old(usage).(outputTokens := CountOf(chunk.usage.value)) else old(usage)
      ensures wire.meta == Reported(old(wire.meta), chunk, stopReason,
                                    Increase(old(usage.outputTokens), usage.outputTokens))
    {
      hide Replay, Coherent, Held, FinishReason, CountOf, Increase, Reported;
      if FinishReason(chunk).Some? {
        stopReason := FinishReason(chunk);
      }
      CoerceToolUseStopReason();
      events := Report(chunk);
    }

    /** What the fence parser holds back comes out. */
    method Drain() returns (events: seq<StreamEvent>)
      requires Valid()
      modifies this`fenceParser, this`blocks, this`finalBlocks, this`wire, this`open, this`heard, fenceParser
      ensures Coherent() && (!started ==> blocks == []) && wire.phase == old(wire.phase)
      ensures heard == old(heard) + Saids(EndOfText(old(fenceParser.buf), old(fenceParser.insideCanvas)).out)
      ensures Replay(false, old(wire), events) == Some(wire) && wire.meta == old(wire.meta)
    {
      hide Replay, HearAll, Line, Saids, Held, Tied, OnlyOpen;
      var finish := fenceParser.Finish();
      fenceParser := new FenceParser();
      FlatNothing(finish.chunks);
      events := EmitFenceChunks(finish.chunks);
    }

    /** End of stream: drain the fence parser and close every occupied slot. */
    method Flush() returns (events: seq<StreamEvent>)
      requires Valid()
      modifies this, fenceParser
      ensures started == old(started) && id == old(id) && model == old(model) && usage == old(usage)
      ensures stopReason == if sawFunctionCall then Some(ToolTurn) else Some(GetOr(old(stopReason), EndTurn))
      ensures sawFunctionCall == old(sawFunctionCall)
      ensures heard == old(heard) + Saids(EndOfText(old(fenceParser.buf), old(fenceParser.insideCanvas)).out)
      ensures finalBlocks == Finished(HearAll(SILENCE, heard))
      ensures started ==>
        && wire.phase.Streaming? && wire.meta == old(wire.meta) && NoneOpen(wire.slots)
        && Tied(blocks, finalBlocks, wire)
      ensures started ==> Replay(false, old(wire), events) == Some(wire.(phase := Ended))
    {
      hide Replay, HearAll, Line, Saids, Held, Tied;
      ghost var w0 := wire;
      events := Drain();
      var evs := CloseAll();
      ReplayJoin(false, w0, events, evs);
      events := events + evs;
      AllEmpty(blocks, finalBlocks, wire);
      stopReason := Some(GetOr(stopReason, EndTurn));
      CoerceToolUseStopReason();
      if started {
        ReplayNext(false, w0, events, wire, MessageStop);
      }
      events := events + [MessageStop];
    }

    method CloseAll() returns (out: seq<StreamEvent>)
      requires Tidy() && (blocks != [] ==> wire.phase.Streaming?)
      modifies this`blocks, this`finalBlocks, this`wire, this`open
      ensures Tied(blocks, finalBlocks, wire) && finalBlocks == old(Finished(Assembled()))
      ensures forall i :: 0 <= i < |blocks| ==> blocks[i].None?
      ensures wire.phase == old(wire.phase)
      ensures Replay(false, old(wire), out) == Some(wire) && wire.meta == old(wire.meta)
    {
      hide Replay, Tied;
      out := [];
      ghost var w0 := wire;
      ReplayNothing(false, w0);
      var i := 0;
      while i < |blocks|
        invariant 0 <= i <= |blocks| == old(|blocks|)
        invariant Tidy() && wire.phase == w0.phase && wire.meta == w0.meta
        invariant Finished(Assembled()) == old(Finished(Assembled()))
        invariant forall j :: 0 <= j < i ==> blocks[j].None?
        invariant Replay(false, w0, out) == Some(wire)
      {
        if blocks[i].Some? {
          var evs := CloseBlock(i, false);
          open := None;
          ReplayJoin(false, w0, out, evs);
          out := out + evs;
        }
        i := i + 1;
      }
    }

    method Finish() returns (r: Result<CompleteResponse, ProviderError>)
      ensures !started ==> r == Err(Internal("stream decode error: stream produced no chunks"))
      ensures started ==> r == Ok(CompleteResponse(GetOr(id, ""), GetOr(model, ""), finalBlocks,
                                                   GetOr(stopReason, EndTurn), None, usage))
    {
      if !started {
        return Err(Internal("stream decode error: stream produced no chunks"));
      }
      return Ok(CompleteResponse(GetOr(id, ""), GetOr(model, ""), finalBlocks, GetOr(stopReason, EndTurn), None,
                                 usage));
    }
  }

  lemma AllEmpty(blocks: seq<Option<ContentBlock>>, finals: seq<ContentBlock>, w: Wire)
    requires Tied(blocks, finals, w) && forall i :: 0 <= i < |blocks| ==> blocks[i].None?
    ensures NoneOpen(w.slots)
  {
  }

  function FinishReason(chunk: Response): Option<StopReason> {
    if chunk.candidates != [] && chunk.candidates[0].finishReason.Some?
    then Some(StopReasonFromGemini(chunk.candidates[0].finishReason.value)) else None
  }

  /** A chunk after which the stop reason, if there is one, is announced. */
  predicate Speaks(chunk: Response) {
    chunk.usage.Some? || FinishReason(chunk).Some?
  }

  /** What the client has been told after the report of a chunk. */
  function Reported(m: Meta, chunk: Response, stop: Option<StopReason>, increase: nat): Meta {
    Meta(m.id, m.model, m.tokens + increase, if stop.Some? && Speaks(chunk) then stop else m.reason, m.sequence)
  }

  function CountOf(u: UsageMetadata): nat {
    GetOr(u.candidatesTokenCount, 0)
  }

  /** Saturating subtraction. */
  function Increase(before: nat, after: nat): nat {
    if after > before then after - before else 0
  }

  lemma HeardStep(heard: seq<Heard>, buf: string, inside: bool, part: Part, rest: seq<Part>)
    ensures var f := FenceAfter(buf, inside, part);
            heard + HeardFrom(buf, inside, [part] + rest)
              == heard + PartHeard(buf, inside, part) + HeardFrom(f.buf, f.inside, rest)
  {
    hide FenceAfter, PartHeard;
    assert ([part] + rest)[1..] == rest;
  }

  // ---------------------------------------------------------------------------------------------
  // Whole runs
  // ---------------------------------------------------------------------------------------------

  predicate SawCall(chunks: seq<Response>) {
    exists p <- AllParts(chunks) :: p.functionCall.Some?
  }

  function LastReason(chunks: seq<Response>): Option<StopReason> {
    if chunks == [] then None
    else if FinishReason(chunks[|chunks| - 1]).Some? then FinishReason(chunks[|chunks| - 1])
    else LastReason(chunks[..|chunks| - 1])
  }

  /** The output-token counts reported, in order. */
  function Counts(chunks: seq<Response>): seq<nat> {
    if chunks == [] then [] else
      var last := chunks[|chunks| - 1];
      Counts(chunks[..|chunks| - 1]) + if last.usage.Some? then [CountOf(last.usage.value)] else []
  }

  function LastCount(counts: seq<nat>): nat {
    if counts == [] then 0 else counts[|counts| - 1]
  }

  /** The sum of the increases. */
  function Announced(counts: seq<nat>): nat {
    if counts == [] then 0 else
      var init := counts[..|counts| - 1];
      Announced(init) + Increase(LastCount(init), LastCount(counts))
  }

  predicate NeverDecreases(counts: seq<nat>) {
    forall i :: 0 <= i < |counts| - 1 ==> counts[i] <= counts[i + 1]
  }

  /** The announced increases cover the final count, and meet it exactly when no report went down. */
  lemma {:induction false} AnnouncedCovers(counts: seq<nat>)
    ensures Announced(counts) >= LastCount(counts)
    ensures Announced(counts) == LastCount(counts) <==> NeverDecreases(counts)
  {
    if counts != [] {
      var init := counts[..|counts| - 1];
      AnnouncedCovers(init);
      if NeverDecreases(init) && init != [] {
        assert NeverDecreases(counts) <==> counts[|counts| - 2] <= counts[|counts| - 1];
      }
      if !NeverDecreases(init) {
        var i :| 0 <= i < |init| - 1 && !(init[i] <= init[i + 1]);
        assert !(counts[i] <= counts[i + 1]);
      }
    }
  }

  function MaxPrompt(chunks: seq<Response>): nat {
    if chunks == [] then 0 else
      var last, before := chunks[|chunks| - 1], MaxPrompt(chunks[..|chunks| - 1]);
      if last.usage.Some? && last.usage.value.promptTokenCount > before
      then last.usage.value.promptTokenCount else before
  }

  function LastCached(chunks: seq<Response>): Option<nat> {
    if chunks == [] then None else
      var last := chunks[|chunks| - 1];
      if last.usage.Some? && last.usage.value.cachedContentTokenCount.Some?
      then last.usage.value.cachedContentTokenCount
      else LastCached(chunks[..|chunks| - 1])
  }

  /** The stop reason of the accumulator after some chunks. */
  function StopAfter(chunks: seq<Response>): Option<StopReason> {
    if SawCall(chunks) then Some(ToolTurn) else LastReason(chunks)
  }

  /** The last stop reason the client is told. */
  function ToldReason(chunks: seq<Response>): Option<StopReason> {
    if chunks == [] then None
    else if StopAfter(chunks).Some? && Speaks(chunks[|chunks| - 1]) then StopAfter(chunks)
    else ToldReason(chunks[..|chunks| - 1])
  }

  /** With the first call or after it comes a chunk that reports a count or a finish reason. */
  ghost predicate CallsAnnounced(chunks: seq<Response>) {
    SawCall(chunks) ==> exists k :: 0 <= k < |chunks| && Speaks(chunks[k]) && SawCall(chunks[..k + 1])
  }

  /** The client is told the stop reason of the reply exactly when calls are announced. */
  lemma {:induction false} ReasonIsTold(chunks: seq<Response>)
    ensures GetOr(ToldReason(chunks), EndTurn) == GetOr(StopAfter(chunks), EndTurn) <==> CallsAnnounced(chunks)
    ensures ToldReason(chunks) == Some(ToolTurn) <==> SawCall(chunks) && CallsAnnounced(chunks)
    ensures !SawCall(chunks) ==> ToldReason(chunks) == LastReason(chunks)
    ensures LastReason(chunks) != Some(ToolTurn)
  {
    hide FinishReason, SawCall;
    if chunks == [] {
      NoneSawCall();
    } else {
      var n := |chunks| - 1;
      var init, last := chunks[..n], chunks[n];
      ReasonIsTold(init);
      assert chunks == init + [last] && chunks[..n + 1] == chunks;
      SawCallSnoc(init, last);
      NeverToolTurn(last);
      if SawCall(init) && CallsAnnounced(init) {
        var k :| 0 <= k < n && Speaks(init[k]) && SawCall(init[..k + 1]);
        assert init[..k + 1] == chunks[..k + 1] && Speaks(chunks[k]);
      }
      if SawCall(chunks) && CallsAnnounced(chunks) && !Speaks(last) {
        var k :| 0 <= k < |chunks| && Speaks(chunks[k]) && SawCall(chunks[..k + 1]);
        assert init[..k + 1] == chunks[..k + 1] && Speaks(init[k]);
        SawCallGrows(init[..k + 1], init);
      }
    }
  }

  lemma NoneSawCall()
    ensures !SawCall([])
  {
  }

  lemma NeverToolTurn(chunk: Response)
    ensures FinishReason(chunk) != Some(ToolTurn)
  {
  }

  lemma SawCallGrows(before: seq<Response>, chunks: seq<Response>)
    requires before <= chunks && SawCall(before)
    ensures SawCall(chunks)
    decreases |chunks|
  {
    if before != chunks {
      var n := |chunks| - 1;
      SawCallGrows(before, chunks[..n]);
      assert chunks == chunks[..n] + [chunks[n]];
      SawCallSnoc(chunks[..n], chunks[n]);
    }
  }

  /** They are not when the one chunk with a call reports neither: the reply says ToolTurn, the client heard
      nothing. */
  lemma SilentCall(chunk: Response)
    requires !Speaks(chunk) && exists p <- ChunkParts(chunk) :: p.functionCall.Some?
    ensures StopAfter([chunk]) == Some(ToolTurn) && ToldReason([chunk]) == None && !CallsAnnounced([chunk])
  {
    SawCallSnoc([], chunk);
    assert [] + [chunk] == [chunk] && [chunk][..0] == [];
    assert ToldReason([]) == None;
    ReasonIsTold([chunk]);
  }

  /** The reply to some chunks: a call makes the stop reason ToolTurn, else it is the last one reported. */
  function ReplyTo(chunks: seq<Response>): CompleteResponse
    requires chunks != []
  {
    CompleteResponse(GetOr(chunks[0].responseId, "gemini-response"), GetOr(chunks[0].modelVersion, ""), Content(chunks),
                     GetOr(StopAfter(chunks), EndTurn), None,
                     Usage(MaxPrompt(chunks), LastCount(Counts(chunks)), None, LastCached(chunks)))
  }

  /** Consume a whole stream.  For every sequence of parts, however spread over chunks: a client can
      replay the emitted events, every block is closed exactly once, the final content lists the
      rebuilt blocks in the order of their Stops, and it is the content of what the parts said.  The
      stop reason is ToolTurn exactly when a function call was seen, and the announced output tokens
      sum to at least the final count, with equality exactly when no reported count goes down. */
  method ConsumeSse(chunks: seq<Response>)
    returns (events: seq<StreamEvent>, result: Result<CompleteResponse, ProviderError>)
    ensures result == if chunks == [] then Err(Internal("stream decode error: stream produced no chunks"))
            else Ok(ReplyTo(chunks))
    ensures chunks != [] ==>
              var w := Replay(false, START, events);
              && w.Some? && w.value.phase.Ended? && NoneOpen(w.value.slots) && StopsOk(w.value)
              && result.value.content == InStopOrder(w.value)
              && result.value.usage.outputTokens <= w.value.meta.tokens
              && (result.value.usage.outputTokens == w.value.meta.tokens <==> NeverDecreases(Counts(chunks)))
              && w.value.meta == Meta(result.value.id, result.value.model, w.value.meta.tokens, ToldReason(chunks),
                                      None)
              && (Tells(w.value.meta, result.value) <==> CallsAnnounced(chunks))
    ensures chunks != [] ==> (result.value.stopReason == ToolTurn <==> SawCall(chunks))
  {
    hide Replay, HearAll, HeardFrom, Held, FinishReason, Tied, OnlyOpen, Counts, LastReason, MaxPrompt, LastCached;
    hide Announced, LastCount, AllParts, SawCall, Tally, ToldReason, CallsAnnounced, NeverDecreases, Increase;
    var acc := new Accumulator();
    NoTally();
    events := [];
    ReplayNothing(false, START);
    assert chunks[0..] == chunks && chunks[..0] == [];
    var k := 0;
    while k < |chunks|
      invariant 0 <= k <= |chunks|
      invariant acc.Valid() && fresh(acc) && fresh(acc.fenceParser)
      invariant acc.started <==> k > 0
      invariant HeardFrom("", false, AllParts(chunks))
             == acc.heard + HeardFrom(acc.fenceParser.buf, acc.fenceParser.insideCanvas, AllParts(chunks[k..]))
      invariant Replay(false, START, events) == Some(acc.wire)
      invariant k > 0 ==>
        acc.id == Some(GetOr(chunks[0].responseId, "gemini-response")) && acc.model == chunks[0].modelVersion
      invariant k > 0 ==> acc.wire.meta.id == GetOr(acc.id, "") && acc.wire.meta.model == GetOr(acc.model, "")
      invariant k == 0 ==> !acc.sawFunctionCall && acc.stopReason == None
      invariant acc.usage.cacheCreation == None
      invariant Tally(acc.sawFunctionCall, acc.stopReason, acc.usage, acc.wire.meta, chunks[..k])
    {
      ghost var saw, reason, usage := acc.sawFunctionCall, acc.stopReason, acc.usage;
      ghost var meta := if acc.started then acc.wire.meta
                        else Meta(GetOr(chunks[0].responseId, "gemini-response"), GetOr(chunks[0].modelVersion, ""),
                                  0, None, None);
      assert chunks[k..][1..] == chunks[k + 1..];
      AllPartsFirst(chunks[k..]);
      var evs := acc.ConsumeChunk(chunks[k], AllParts(chunks[k + 1..]));
      ReplayJoin(false, START, events, evs);
      events := events + evs;
      TallyStep(saw, reason, usage, meta, chunks[..k], chunks[k]);
      assert chunks[..k] + [chunks[k]] == chunks[..k + 1];
      k := k + 1;
    }
    assert chunks[..k] == chunks && AllParts(chunks[k..]) == [] by { AllPartsFirst(chunks[k..]); }
    EndHeard(acc.fenceParser.buf, acc.fenceParser.insideCanvas);
    TallyIs(acc.sawFunctionCall, acc.stopReason, acc.usage, acc.wire.meta, chunks);
    var evs := acc.Flush();
    ReplayJoin(false, START, events, evs);
    events := events + evs;
    result := acc.Finish();
    AnnouncedCovers(Counts(chunks));
    ReasonIsTold(chunks);
    if chunks != [] {
      StopsExact(false, START, events);
      TiedOrder(acc.blocks, acc.finalBlocks, acc.wire.(phase := Ended));
    }
  }

  /** The summary fields of the accumulator after the given chunks. */
  predicate Tally(saw: bool, reason: Option<StopReason>, usage: Usage, meta: Meta, chunks: seq<Response>) {
    && saw == SawCall(chunks)
    && reason == StopAfter(chunks)
    && usage == Usage(MaxPrompt(chunks), LastCount(Counts(chunks)), None, LastCached(chunks))
    && meta.tokens == Announced(Counts(chunks)) && meta.reason == ToldReason(chunks) && meta.sequence == None
  }

  lemma NoTally()
    ensures forall id, model :: Tally(false, None, NO_USAGE, Meta(id, model, 0, None, None), [])
  {
  }

  lemma TallyStep(saw: bool, reason: Option<StopReason>, usage: Usage, meta: Meta, chunks: seq<Response>, c: Response)
    requires Tally(saw, reason, usage, meta, chunks)
    ensures var saw' := saw || exists p <- ChunkParts(c) :: p.functionCall.Some?;
            var out := if c.usage.Some? then CountOf(c.usage.value) else usage.outputTokens;
            var stop := if saw' then Some(ToolTurn) else if FinishReason(c).Some? then FinishReason(c) else reason;
            Tally(saw', stop,
                  Usage(if c.usage.Some? && c.usage.value.promptTokenCount > usage.inputTokens
                        then c.usage.value.promptTokenCount else usage.inputTokens,
                        out, None,
                        if c.usage.Some? && c.usage.value.cachedContentTokenCount.Some?
                        then c.usage.value.cachedContentTokenCount else usage.cacheRead),
                  Reported(meta, c, stop, Increase(usage.outputTokens, out)),
                  chunks + [c])
  {
    hide SawCall, FinishReason, CountOf, Announced, LastCount, Counts, LastReason, StopAfter, ToldReason, Speaks;
    hide MaxPrompt, LastCached, ChunkParts, Increase;
    assert (chunks + [c])[..|chunks|] == chunks;
    SawCallSnoc(chunks, c);
    ReasonSnoc(chunks, c);
    PromptSnoc(chunks, c);
    CountsSnoc(chunks + [c]);
  }

  lemma PromptSnoc(chunks: seq<Response>, c: Response)
    ensures MaxPrompt(chunks + [c]) == if c.usage.Some? && c.usage.value.promptTokenCount > MaxPrompt(chunks)
                                       then c.usage.value.promptTokenCount else MaxPrompt(chunks)
    ensures LastCached(chunks + [c]) == if c.usage.Some? && c.usage.value.cachedContentTokenCount.Some?
                                        then c.usage.value.cachedContentTokenCount else LastCached(chunks)
  {
    assert (chunks + [c])[..|chunks|] == chunks;
  }

  lemma ReasonSnoc(chunks: seq<Response>, c: Response)
    ensures var stop := StopAfter(chunks + [c]);
            && stop == (if SawCall(chunks + [c]) then Some(ToolTurn)
                        else if FinishReason(c).Some? then FinishReason(c) else LastReason(chunks))
            && ToldReason(chunks + [c]) == if stop.Some? && Speaks(c) then stop else ToldReason(chunks)
    ensures !SawCall(chunks) ==> StopAfter(chunks) == LastReason(chunks)
  {
    hide SawCall, FinishReason;
    assert (chunks + [c])[..|chunks|] == chunks;
  }

  lemma TallyIs(saw: bool, reason: Option<StopReason>, usage: Usage, meta: Meta, chunks: seq<Response>)
    requires Tally(saw, reason, usage, meta, chunks)
    ensures saw == SawCall(chunks) && reason == StopAfter(chunks)
    ensures usage == Usage(MaxPrompt(chunks), LastCount(Counts(chunks)), None, LastCached(chunks))
    ensures meta.tokens == Announced(Counts(chunks)) && meta.reason == ToldReason(chunks) && meta.sequence == None
  {
    hide SawCall, StopAfter, MaxPrompt, LastCount, LastCached, Announced, Counts, ToldReason;
  }

  lemma AllPartsFirst(chunks: seq<Response>)
    ensures AllParts(chunks) == if chunks == [] then [] else ChunkParts(chunks[0]) + AllParts(chunks[1..])
  {
  }

  lemma EndHeard(buf: string, inside: bool)
    ensures HeardFrom(buf, inside, []) == Saids(EndOfText(buf, inside).out)
  {
  }

  lemma TiedOrder(blocks: seq<Option<ContentBlock>>, finals: seq<ContentBlock>, w: Wire)
    requires Tied(blocks, finals, w.(phase := Streaming)) && StopsOk(w)
    ensures InStopOrder(w) == finals
  {
  }

  lemma SawCallSnoc(chunks: seq<Response>, c: Response)
    ensures SawCall(chunks + [c]) <==> SawCall(chunks) || exists p <- ChunkParts(c) :: p.functionCall.Some?
  {
    AllPartsSnoc(chunks, c);
    var a, b := AllParts(chunks), ChunkParts(c);
    assert forall p :: p in a + b <==> p in a || p in b;
  }

  lemma {:induction false} AllPartsSnoc(chunks: seq<Response>, c: Response)
    ensures AllParts(chunks + [c]) == AllParts(chunks) + ChunkParts(c)
  {
    if chunks == [] {
      assert AllParts([c]) == ChunkParts(c) + AllParts([]);
    } else {
      assert (chunks + [c])[1..] == chunks[1..] + [c];
      AllPartsSnoc(chunks[1..], c);
    }
  }

  lemma CountsSnoc(chunks: seq<Response>)
    requires chunks != []
    ensures var last := chunks[|chunks| - 1];
            var before := Counts(chunks[..|chunks| - 1]);
            && LastCount(Counts(chunks)) == (if last.usage.Some? then CountOf(last.usage.value) else LastCount(before))
            && Announced(Counts(chunks)) == Announced(before) + Increase(LastCount(before), LastCount(Counts(chunks)))
  {
    var last := chunks[|chunks| - 1];
    var before := Counts(chunks[..|chunks| - 1]);
    if last.usage.Some? {
      assert Counts(chunks)[..|before|] == before;
    } else {
      assert Counts(chunks) == before;
    }
  }
}
