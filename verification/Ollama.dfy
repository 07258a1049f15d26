/** The Ollama stream adapter (crates/provider-local/src/stream.rs). */
module Ollama {
  import opened Base
  import opened Fence
  import opened Spp

  datatype ToolCall = ToolCall(id: Option<string>, name: string, arguments: Value)

  /** `text` is what `message_text` extracts from the JSON content. */
  datatype Message = Message(text: Option<string>, toolCalls: seq<ToolCall>)

  datatype ChatResponse = ChatResponse(
    model: Option<string>, message: Option<Message>, done: bool, doneReason: Option<string>,
    promptEvalCount: Option<nat>, evalCount: Option<nat>)

  function StopReasonFromOllama(reason: Option<string>): (r: StopReason)
    ensures r == MaxTokens <==> reason == Some("length")
    ensures r == ToolTurn <==> reason == Some("tool_calls")
    ensures r in {EndTurn, MaxTokens, ToolTurn}
  {
    match reason
    case None => EndTurn
    case Some(r) => if r == "length" then MaxTokens else if r == "tool_calls" then ToolTurn else EndTurn
  }

  function ToolBlock(tc: ToolCall, idx: nat): (b: ContentBlock)
    ensures b.ToolUse? && b.name == tc.name && b.input == tc.arguments
    ensures tc.id.Some? ==> b.id == tc.id.value
  {
    ToolUse(GetOr(tc.id, "ollama-" + tc.name + "-" + Decimal(idx)), tc.name, tc.arguments)
  }

  // ---------------------------------------------------------------------------------------------
  // What a run of chunks says
  // ---------------------------------------------------------------------------------------------

  function ChunkText(chunk: ChatResponse): (text: string)
    ensures text != "" ==> chunk.message.Some? && chunk.message.value.text == Some(text)
    ensures chunk.message.Some? && chunk.message.value.text.Some? ==> text == chunk.message.value.text.value
  {
    if chunk.message.Some? then GetOr(chunk.message.value.text, "") else ""
  }

  function ChunkTools(chunk: ChatResponse): seq<ToolCall> {
    if chunk.message.Some? then chunk.message.value.toolCalls else []
  }

  function ToolItems(tools: seq<ToolCall>): seq<Item> {
    seq(|tools|, i requires 0 <= i < |tools| => Whole(ToolBlock(tools[i], i)))
  }

  /** Text goes through the fence parser, then the chunk's tool calls follow. */
  function Items(buf: string, inside: bool, chunks: seq<ChatResponse>): seq<Item>
    decreases |chunks|
  {
    if chunks == [] then Glyphs(EndOfText(buf, inside).out) else
      var f := Feed(buf + ChunkText(chunks[0]), inside);
      Glyphs(f.out) + ToolItems(ChunkTools(chunks[0])) + Items(f.buf, f.inside, chunks[1..])
  }

  // ---------------------------------------------------------------------------------------------
  // The accumulator
  // ---------------------------------------------------------------------------------------------

  datatype CurrentBlock = CurrentBlock(index: nat, html: bool, buf: string)

  function Closed(blocks: seq<ContentBlock>): seq<Slot> {
    seq(|blocks|, i requires 0 <= i < |blocks| => Slot(blocks[i], "", false))
  }

  /** The client's view when `blocks` are finished and `open`, if any, is still growing; `told` is what it was
      told of the message, if that has started. */
  function View(told: Option<Meta>, blocks: seq<ContentBlock>, open: Option<ContentBlock>): Wire {
    Wire(if told.Some? then Streaming else Idle,
         Closed(blocks) + (if open.None? then [] else [Slot(open.value, "", true)]),
         Upto(|blocks|), GetOr(told, NO_META))
  }

  function Upto(n: nat): seq<nat> {
    seq(n, i => i)
  }

  lemma StartStep(m: Meta, blocks: seq<ContentBlock>, b: ContentBlock)
    ensures Apply(true, View(Some(m), blocks, None), ContentBlockStart(|blocks|, b))
            == Some(View(Some(m), blocks, Some(b)))
  {
    assert View(Some(m), blocks, None).slots == Closed(blocks);
  }

  lemma DeltaStep(m: Meta, blocks: seq<ContentBlock>, html: bool, s: string, t: string)
    ensures Apply(true, View(Some(m), blocks, Some(StreamBlock(html, s))),
                  ContentBlockDelta(|blocks|, if html then HtmlSourceDelta(t) else TextDelta(t)))
         == Some(View(Some(m), blocks, Some(StreamBlock(html, s + t))))
  {
    var n := |blocks|;
    assert View(Some(m), blocks, Some(StreamBlock(html, s))).slots[n := Slot(StreamBlock(html, s + t), "", true)]
        == View(Some(m), blocks, Some(StreamBlock(html, s + t))).slots;
  }

  lemma StopStep(m: Meta, blocks: seq<ContentBlock>, b: ContentBlock)
    ensures Apply(true, View(Some(m), blocks, Some(b)), ContentBlockStop(|blocks|))
            == Some(View(Some(m), blocks + [b], None))
  {
    var n := |blocks|;
    assert View(Some(m), blocks, Some(b)).slots[n := Slot(b, "", false)] == View(Some(m), blocks + [b], None).slots;
    assert Upto(n) + [n] == Upto(n + 1);
  }

  lemma WholeStep(m: Meta, blocks: seq<ContentBlock>, b: ContentBlock)
    ensures Replay(true, View(Some(m), blocks, None), [ContentBlockStart(|blocks|, b), ContentBlockStop(|blocks|)])
         == Some(View(Some(m), blocks + [b], None))
  {
    hide Apply, View;
    var w, mid := View(Some(m), blocks, None), View(Some(m), blocks, Some(b));
    StartStep(m, blocks, b);
    StopStep(m, blocks, b);
    ReplayOne(true, w, ContentBlockStart(|blocks|, b));
    ReplayNext(true, w, [ContentBlockStart(|blocks|, b)], mid, ContentBlockStop(|blocks|));
    assert [ContentBlockStart(|blocks|, b)] + [ContentBlockStop(|blocks|)]
           == [ContentBlockStart(|blocks|, b), ContentBlockStop(|blocks|)];
  }

  class Accumulator {
    var started: bool
    var model: Option<string>
    var usage: Usage
    var stopReason: Option<StopReason>
    var currentBlock: Option<CurrentBlock>
    var finalBlocks: seq<ContentBlock>
    var nextIndex: nat
    var fenceParser: FenceParser

    /** Everything the model has said so far. */
    ghost var said: seq<Item>

    ghost function Open(): Option<ContentBlock>
      reads this
    {
      if currentBlock.None? then None else Some(StreamBlock(currentBlock.value.html, currentBlock.value.buf))
    }

    /** What the client was told of the message, and what it will have been told at its end. */
    ghost function Told(): Option<Meta>
      reads `started, `model
    {
      if started then Some(Meta("ollama-stream", GetOr(model, ""), 0, None, None)) else None
    }

    ghost function Farewell(): Meta
      reads `model, `usage, `stopReason
    {
      Meta("ollama-stream", GetOr(model, ""), usage.outputTokens, stopReason, None)
    }

    /** What a client has rebuilt from every event emitted so far. */
    ghost function ClientView(): Wire
      reads this
    {
      View(Told(), finalBlocks, Open())
    }

    ghost function Content(): seq<ContentBlock>
      reads this
    {
      finalBlocks + if Open().None? then [] else [Open().value]
    }

    ghost predicate Indexed()
      reads this
    {
      && nextIndex == |finalBlocks|
      && (currentBlock.Some? ==> started && currentBlock.value.index == nextIndex)
    }

    ghost predicate Coherent()
      reads this
    {
      && Indexed()
      && (currentBlock.None? && finalBlocks != [] ==> finalBlocks[|finalBlocks| - 1].ToolUse?)
      && Assemble(said) == Content()
    }

    ghost predicate Valid()
      reads this, fenceParser
    {
      Coherent() && fenceParser.Valid() && (!started ==> fenceParser.buf == "" && usage == NO_USAGE)
    }

    constructor ()
      ensures Valid() && fresh(fenceParser)
      ensures !started && finalBlocks == [] && currentBlock == None && said == [] && stopReason == None
              && usage == NO_USAGE
      ensures fenceParser.buf == "" && !fenceParser.insideCanvas
    {
      started, model, usage, stopReason := false, None, NO_USAGE, None;
      currentBlock, finalBlocks, nextIndex := None, [], 0;
      fenceParser := new FenceParser();
      said := [];
    }

    method CloseCurrentBlock() returns (out: seq<StreamEvent>)
      requires currentBlock.Some? ==> Indexed()
      modifies this`currentBlock, this`finalBlocks, this`nextIndex
      ensures currentBlock == None && finalBlocks == old(Content())
      ensures nextIndex - old(nextIndex) == |finalBlocks| - old(|finalBlocks|)
      ensures Replay(true, old(ClientView()), out) == Some(ClientView())
    {
      out := [];
      if currentBlock.Some? {
        var cur := currentBlock.value;
        currentBlock := None;
        out := out + [ContentBlockStop(cur.index)];
        StopStep(Told().value, finalBlocks, StreamBlock(cur.html, cur.buf));
        ReplayOne(true, old(ClientView()), out[0]);
        finalBlocks := finalBlocks + [StreamBlock(cur.html, cur.buf)];
        nextIndex := nextIndex + 1;
      }
    }

    /** One fence chunk: close a block of the other kind, open one if none is, append. */
    method EmitBlockChunk(html: bool, text: string) returns (out: seq<StreamEvent>)
      requires Coherent() && started && text != ""
      modifies this`currentBlock, this`finalBlocks, this`nextIndex, this`said
      ensures Coherent() && said == old(said) + Glyphs(Tag(html, text))
      ensures Replay(true, old(ClientView()), out) == Some(ClientView())
    {
      hide Assemble, View, Replay, Glyphs, Tag;
      AssembleText(said, html, text);
      ghost var w0 := ClientView();
      ReplayNothing(true, w0);
      out := [];
      if currentBlock.Some? && currentBlock.value.html != html {
        out := CloseCurrentBlock();
      }
      if currentBlock.None? {
        StartStep(Told().value, finalBlocks, StreamBlock(html, ""));
        ReplayNext(true, w0, out, ClientView(), ContentBlockStart(nextIndex, StreamBlock(html, "")));
        out := out + [ContentBlockStart(nextIndex, StreamBlock(html, ""))];
        currentBlock := Some(CurrentBlock(nextIndex, html, ""));
      }
      var cur := currentBlock.value;
      var delta := if html then HtmlSourceDelta(text) else TextDelta(text);
      DeltaStep(Told().value, finalBlocks, html, cur.buf, text);
      ReplayNext(true, w0, out, ClientView(), ContentBlockDelta(cur.index, delta));
      currentBlock := Some(cur.(buf := cur.buf + text));
      out := out + [ContentBlockDelta(cur.index, delta)];
      said := said + Glyphs(Tag(html, text));
      assert Content()[..|finalBlocks|] == finalBlocks;
      assert "" + text == text;
      assert old(Content())[..old(|finalBlocks|)] == old(finalBlocks);
      assert Content() == AddText(old(Content()), html, text);
    }

    method EmitFenceChunks(chunks: seq<FenceChunk>) returns (out: seq<StreamEvent>)
      requires Coherent() && Canonical(chunks) && (chunks != [] ==> started)
      modifies this`currentBlock, this`finalBlocks, this`nextIndex, this`said
      ensures Coherent() && said == old(said) + Glyphs(Flat(chunks))
      ensures Replay(true, old(ClientView()), out) == Some(ClientView())
    {
      hide Coherent, ClientView, Replay;
      out := [];
      ghost var w0 := ClientView();
      ReplayNothing(true, w0);
      var k := 0;
      while k < |chunks|
        invariant 0 <= k <= |chunks|
        invariant Coherent()
        invariant said == old(said) + Glyphs(Flat(chunks[..k]))
        invariant Replay(true, w0, out) == Some(ClientView())
      {
        ghost var w1 := ClientView();
        var evs := EmitBlockChunk(chunks[k].Html?, chunks[k].payload);
        ReplayJoin(true, w0, out, evs);
        out := out + evs;
        assert chunks[..k + 1][..k] == chunks[..k];
        k := k + 1;
      }
      assert chunks[..k] == chunks;
    }

    /** The chunk's tool calls: each closes what is open and is started and stopped at once, at
        `nextIndex` plus its position in the chunk. */
    method EmitToolCalls(tools: seq<ToolCall>) returns (out: seq<StreamEvent>)
      requires Coherent() && started
      modifies this`currentBlock, this`finalBlocks, this`nextIndex, this`said
      ensures Coherent() && said == old(said) + ToolItems(tools)
      ensures Replay(true, old(ClientView()), out) == Some(ClientView())
    {
      hide Assemble, View, Replay;
      out := [];
      ghost var w0 := ClientView();
      ReplayNothing(true, w0);
      var idx := 0;
      while idx < |tools|
        invariant 0 <= idx <= |tools|
        invariant idx == 0 ==> Coherent()
        invariant idx > 0 ==> currentBlock == None && finalBlocks != [] && finalBlocks[|finalBlocks| - 1].ToolUse?
        invariant |finalBlocks| == nextIndex + idx
        invariant Assemble(said) == Content()
        invariant said == old(said) + ToolItems(tools[..idx])
        invariant Replay(true, w0, out) == Some(ClientView())
      {
        ghost var w1 := ClientView();
        var evs := CloseCurrentBlock();
        ReplayJoin(true, w0, out, evs);
        out := out + evs;
        var blockIdx := nextIndex + idx;
        var block := ToolBlock(tools[idx], idx);
        WholeStep(Told().value, finalBlocks, block);
        evs := [ContentBlockStart(blockIdx, block), ContentBlockStop(blockIdx)];
        ReplayJoin(true, w0, out, evs);
        out := out + evs;
        finalBlocks := finalBlocks + [block];
        AssembleOne(said, Whole(block));
        said := said + [Whole(block)];
        assert ToolItems(tools[..idx + 1]) == ToolItems(tools[..idx]) + [Whole(block)];
        idx := idx + 1;
      }
      assert tools[..idx] == tools;
      if tools != [] {
        nextIndex := nextIndex + |tools|;
      }
    }

    method ConsumeChunk(chunk: ChatResponse) returns (events: seq<StreamEvent>)
      requires Valid()
      modifies this, fenceParser
      ensures Valid() && started && fenceParser == old(fenceParser)
      ensures var f := Feed(old(fenceParser.buf) + ChunkText(chunk), old(fenceParser.insideCanvas));
              && said == old(said) + Glyphs(f.out) + ToolItems(ChunkTools(chunk))
              && fenceParser.buf == f.buf && fenceParser.insideCanvas == f.inside
      ensures Replay(true, old(ClientView()), events) == Some(ClientView())
      ensures model == if old(started) then old(model) else chunk.model
      ensures chunk.done ==> stopReason == Some(StopReasonFromOllama(chunk.doneReason))
      ensures chunk.done ==>
                usage == old(usage).(inputTokens := GetOr(chunk.promptEvalCount, 0),
                                     outputTokens := GetOr(chunk.evalCount, 0))
      ensures !chunk.done ==> stopReason == old(stopReason) && usage == old(usage)
    {
      hide Assemble, Replay, Feed, Held, ToolItems, Glyphs, View;
      ghost var w0 := ClientView();
      events := Begin(chunk);
      FeedNothing(fenceParser.buf, fenceParser.insideCanvas);
      GlyphsNothing();
      if ChunkText(chunk) != "" {
        var fenceChunks := fenceParser.Push(ChunkText(chunk));
        var evs := EmitFenceChunks(fenceChunks);
        ReplayJoin(true, w0, events, evs);
        events := events + evs;
      }
      var evs := EmitToolCalls(ChunkTools(chunk));
      ReplayJoin(true, w0, events, evs);
      events := events + evs;
      TakeDone(chunk);
    }

    /** The first chunk starts the message. */
    method Begin(chunk: ChatResponse) returns (events: seq<StreamEvent>)
      requires Valid()
      modifies this`started, this`model
      ensures Valid() && started
      ensures Replay(true, old(ClientView()), events) == Some(ClientView())
      ensures model == if old(started) then old(model) else chunk.model
    {
      hide Assemble, Replay, Held, View;
      events := [];
      ReplayNothing(true, ClientView());
      if !started {
        started := true;
        model := chunk.model;
        var start := MessageStart("ollama-stream", GetOr(model, ""), usage);
        BeginStep(finalBlocks, start);
        ReplayOne(true, old(ClientView()), start);
        events := [start];
      }
    }

    /** The last chunk brings the stop reason and the usage. */
    method TakeDone(chunk: ChatResponse)
      requires Valid() && started
      modifies this`stopReason, this`usage
      ensures Valid() && ClientView() == old(ClientView())
      ensures chunk.done ==> stopReason == Some(StopReasonFromOllama(chunk.doneReason))
      ensures chunk.done ==>
                usage == old(usage).(inputTokens := GetOr(chunk.promptEvalCount, 0),
                                     outputTokens := GetOr(chunk.evalCount, 0))
      ensures !chunk.done ==> stopReason == old(stopReason) && usage == old(usage)
    {
      hide Assemble, Held, View, StopReasonFromOllama;
      if chunk.done {
        stopReason := Some(StopReasonFromOllama(chunk.doneReason));
        usage := usage.(inputTokens := GetOr(chunk.promptEvalCount, 0));
        usage := usage.(outputTokens := GetOr(chunk.evalCount, 0));
      }
    }

    method Flush() returns (events: seq<StreamEvent>)
      requires Valid()
      modifies this, fenceParser
      ensures started == old(started) && model == old(model) && usage == old(usage)
      ensures stopReason == Some(GetOr(old(stopReason), EndTurn))
      ensures said == old(said) + Glyphs(EndOfText(old(fenceParser.buf), old(fenceParser.insideCanvas)).out)
      ensures finalBlocks == Assemble(said)
      ensures started ==>
        Replay(true, old(ClientView()), events)
          == Some(View(Told(), finalBlocks, None).(phase := Ended, meta := Farewell()))
    {
      hide Assemble, Replay, Line, Glyphs, View;
      ghost var w0 := ClientView();
      events := Drain();
      var evs := CloseCurrentBlock();
      ReplayJoin(true, w0, events, evs);
      events := events + evs;
      evs := EndMessage();
      if started {
        ReplayJoin(true, w0, events, evs);
      }
      events := events + evs;
    }

    /** The closing MessageDelta and MessageStop. */
    method EndMessage() returns (events: seq<StreamEvent>)
      modifies this`stopReason
      ensures stopReason == Some(GetOr(old(stopReason), EndTurn))
      ensures var w := View(Told(), finalBlocks, None);
              started ==> Replay(true, w, events) == Some(w.(phase := Ended, meta := Farewell()))
    {
      hide Replay, Apply, Closed, Upto;
      stopReason := Some(GetOr(stopReason, EndTurn));
      var delta := MessageDelta(stopReason, None, UsageDelta(Some(usage.outputTokens), None));
      ghost var w := View(Told(), finalBlocks, None);
      if started {
        EndStep(Told().value, finalBlocks, delta);
        ReplayOne(true, w, delta);
        ReplayNext(true, w, [delta], w.(meta := Farewell()), MessageStop);
      }
      events := [delta] + [MessageStop];
    }

    /** What the fence parser holds back comes out. */
    method Drain() returns (events: seq<StreamEvent>)
      requires Valid()
      modifies this`fenceParser, this`currentBlock, this`finalBlocks, this`nextIndex, this`said, fenceParser
      ensures Coherent()
      ensures said == old(said) + Glyphs(EndOfText(old(fenceParser.buf), old(fenceParser.insideCanvas)).out)
      ensures Replay(true, old(ClientView()), events) == Some(ClientView())
    {
      hide Assemble, Replay, Line, Glyphs, View, Held;
      var finish := fenceParser.Finish();
      fenceParser := new FenceParser();
      FlatNothing(finish.chunks);
      events := EmitFenceChunks(finish.chunks);
    }

    method Finish() returns (r: Result<CompleteResponse, ProviderError>)
      ensures !started ==> r == Err(Internal("stream produced no chunks"))
      ensures started ==> r == Ok(CompleteResponse("ollama-stream", GetOr(model, ""), finalBlocks,
                                                   GetOr(stopReason, EndTurn), None, usage))
    {
      if !started {
        return Err(Internal("stream produced no chunks"));
      }
      return Ok(CompleteResponse("ollama-stream", GetOr(model, ""), finalBlocks, GetOr(stopReason, EndTurn), None,
                                 usage));
    }
  }

  lemma BeginStep(blocks: seq<ContentBlock>, e: StreamEvent)
    requires e.MessageStart?
    ensures Apply(true, View(None, blocks, None), e)
            == Some(View(Some(Introduced(e.id, e.model, e.usage)), blocks, None))
  {
  }

  lemma EndStep(m: Meta, blocks: seq<ContentBlock>, e: StreamEvent)
    requires e.MessageDelta?
    ensures var w := View(Some(m), blocks, None);
            var v := w.(meta := Amended(m, e.stopReason, e.stopSequence, e.usageDelta));
            Apply(true, w, e) == Some(v) && Apply(true, v, MessageStop) == Some(v.(phase := Ended))
  {
  }

  lemma GlyphsNothing()
    ensures Glyphs([]) == []
  {
  }

  // ---------------------------------------------------------------------------------------------
  // Whole runs
  // ---------------------------------------------------------------------------------------------

  /** The last chunk flagged `done`. */
  function LastDone(chunks: seq<ChatResponse>): Option<ChatResponse> {
    if chunks == [] then None
    else if chunks[|chunks| - 1].done then Some(chunks[|chunks| - 1])
    else LastDone(chunks[..|chunks| - 1])
  }

  /** The reply to some chunks: the model of the first, reason and usage of the last that is `done`. */
  function Reply(chunks: seq<ChatResponse>): CompleteResponse
    requires chunks != []
  {
    var end := LastDone(chunks);
    CompleteResponse("ollama-stream", GetOr(chunks[0].model, ""), Assemble(Items("", false, chunks)),
                     if end.Some? then StopReasonFromOllama(end.value.doneReason) else EndTurn, None,
                     if end.Some?
                     then Usage(GetOr(end.value.promptEvalCount, 0), GetOr(end.value.evalCount, 0), None, None)
                     else NO_USAGE)
  }

  /** Consume a whole stream.  For every chunk sequence the emitted events are strictly bracketed,
      the final content is block by block what a client rebuilds from them, and it is the content
      of what the chunks said. */
  method ConsumeNdjson(chunks: seq<ChatResponse>)
    returns (events: seq<StreamEvent>, result: Result<CompleteResponse, ProviderError>)
    ensures result == if chunks == [] then Err(Internal("stream produced no chunks")) else Ok(Reply(chunks))
    ensures chunks != [] ==>
              Replay(true, START, events)
                   == Some(Wire(Ended, Closed(result.value.content), Upto(|result.value.content|),
                                Meta(result.value.id, result.value.model, result.value.usage.outputTokens,
                                     Some(result.value.stopReason), result.value.stopSequence)))
  {
    hide Assemble, Replay, Feed, Held, ToolItems, Glyphs, Line, StopReasonFromOllama, ChunkText, ChunkTools;
    var acc := new Accumulator();
    events := [];
    ReplayNothing(true, START);
    assert acc.ClientView() == START by { assert View(None, [], None).slots == []; }
    var k := 0;
    while k < |chunks|
      invariant 0 <= k <= |chunks|
      invariant acc.Valid() && fresh(acc) && fresh(acc.fenceParser)
      invariant acc.started <==> k > 0
      invariant Items("", false, chunks)
                == acc.said + Items(acc.fenceParser.buf, acc.fenceParser.insideCanvas, chunks[k..])
      invariant Replay(true, START, events) == Some(acc.ClientView())
      invariant k > 0 ==> acc.model == chunks[0].model
      invariant match LastDone(chunks[..k])
                case None => acc.stopReason == None && acc.usage == NO_USAGE
                case Some(c) =>
                  && acc.stopReason == Some(StopReasonFromOllama(c.doneReason))
                  && acc.usage == Usage(GetOr(c.promptEvalCount, 0), GetOr(c.evalCount, 0), None, None)
      invariant acc.usage.cacheCreation == None && acc.usage.cacheRead == None
    {
      ghost var said, buf, inside := acc.said, acc.fenceParser.buf, acc.fenceParser.insideCanvas;
      var evs := acc.ConsumeChunk(chunks[k]);
      ReplayJoin(true, START, events, evs);
      events := events + evs;
      ItemsStep(said, buf, inside, chunks[k..]);
      assert chunks[k..][1..] == chunks[k + 1..];
      assert chunks[..k + 1][..k] == chunks[..k];
      k := k + 1;
    }
    assert chunks[..k] == chunks;
    var evs := acc.Flush();
    ReplayJoin(true, START, events, evs);
    events := events + evs;
    result := acc.Finish();
    assert View(acc.Told(), acc.finalBlocks, None).slots == Closed(acc.finalBlocks);
  }

  lemma ItemsStep(said: seq<Item>, buf: string, inside: bool, chunks: seq<ChatResponse>)
    requires chunks != []
    ensures var f := Feed(buf + ChunkText(chunks[0]), inside);
            said + Items(buf, inside, chunks)
              == said + Glyphs(f.out) + ToolItems(ChunkTools(chunks[0])) + Items(f.buf, f.inside, chunks[1..])
  {
    hide Feed, ToolItems, Glyphs, EndOfText, ChunkText, ChunkTools;
    var f := Feed(buf + ChunkText(chunks[0]), inside);
    var a, b, c := Glyphs(f.out), ToolItems(ChunkTools(chunks[0])), Items(f.buf, f.inside, chunks[1..]);
    assert said + (a + b + c) == said + a + b + c;
  }
}
