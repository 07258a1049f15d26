/** The OpenAI stream adapter (crates/provider-openai/src/stream.rs). */
module OpenAi {
  import opened Base
  import opened Fence
  import opened Spp

  datatype DeltaFunction = DeltaFunction(name: Option<string>, arguments: Option<string>)
  datatype DeltaToolCall = DeltaToolCall(index: nat, id: Option<string>, function_: Option<DeltaFunction>)
  datatype Choice = Choice(finishReason: Option<string>, content: Option<string>, toolCalls: seq<DeltaToolCall>)
  datatype UsageStats = UsageStats(promptTokens: nat, completionTokens: nat)
  datatype ChatCompletionChunk = ChatCompletionChunk(id: string, model: string, usage: Option<UsageStats>,
                                                     choices: seq<Choice>)

  function StopReasonFromStr(s: string): (r: StopReason)
    ensures r == EndTurn <==> s == "stop"
    ensures r == MaxTokens <==> s == "length"
    ensures r == ToolTurn <==> s in {"tool_calls", "function_call"}
    ensures r == Refusal <==> s == "content_filter"
    ensures r != StopSequence
  {
    if s == "stop" then EndTurn
    else if s == "length" then MaxTokens
    else if s == "tool_calls" || s == "function_call" then ToolTurn
    else if s == "content_filter" then Refusal
    else Other
  }

  function ParseToolArguments(args: string, parse: string -> Option<Value>): Value {
    if args == "" then EMPTY_OBJECT else GetOr(parse(args), EMPTY_OBJECT)
  }

  function NameOf(tc: DeltaToolCall): (name: string)
    ensures name != "" ==> tc.function_.Some? && tc.function_.value.name == Some(name)
    ensures tc.function_.Some? && tc.function_.value.name.Some? ==> name == tc.function_.value.name.value
  {
    if tc.function_.Some? then GetOr(tc.function_.value.name, "") else ""
  }

  function ArgsOf(tc: DeltaToolCall): (args: string)
    ensures args != "" ==> tc.function_.Some? && tc.function_.value.arguments == Some(args)
    ensures tc.function_.Some? && tc.function_.value.arguments.Some? ==> args == tc.function_.value.arguments.value
  {
    if tc.function_.Some? then GetOr(tc.function_.value.arguments, "") else ""
  }

  // ---------------------------------------------------------------------------------------------
  // What a run of chunks says
  // ---------------------------------------------------------------------------------------------

  /** A part of the reply: a run of text or html, or the call with a given upstream index. */
  datatype Part = Stream(html: bool, text: string) | Call(index: nat, id: string, name: string, json: string)

  datatype Heard = Said(sym: Sym) | Delta(call: DeltaToolCall)

  function LastStream(parts: seq<Part>): (r: Option<nat>)
    ensures r.Some? ==> r.value < |parts| && parts[r.value].Stream?
  {
    if parts == [] then None
    else if parts[|parts| - 1].Stream? then Some(|parts| - 1)
    else LastStream(parts[..|parts| - 1])
  }

  function FindCall(parts: seq<Part>, index: nat): (r: Option<nat>)
    ensures r.Some? ==> r.value < |parts| && parts[r.value].Call? && parts[r.value].index == index
  {
    if parts == [] then None
    else if parts[|parts| - 1].Call? && parts[|parts| - 1].index == index then Some(|parts| - 1)
    else FindCall(parts[..|parts| - 1], index)
  }

  /** Text belongs to the latest text or html part when that has its kind, whatever calls came
      in between; otherwise it starts a part. */
  function HearText(parts: seq<Part>, html: bool, s: string): seq<Part> {
    var i := LastStream(parts);
    if i.Some? && parts[i.value].html == html
    then parts[i.value := Stream(html, parts[i.value].text + s)]
    else parts + [Stream(html, s)]
  }

  /** A tool delta belongs to the call with its index; the first one starts the call. */
  function HearCall(parts: seq<Part>, tc: DeltaToolCall): seq<Part> {
    var i := FindCall(parts, tc.index);
    if i.Some? then parts[i.value := parts[i.value].(json := parts[i.value].json + ArgsOf(tc))]
    else parts + [Call(tc.index, GetOr(tc.id, ""), NameOf(tc), ArgsOf(tc))]
  }

  function Hear(parts: seq<Part>, h: Heard): seq<Part> {
    match h
    case Said(sym) => HearText(parts, sym.html, [sym.c])
    case Delta(tc) => HearCall(parts, tc)
  }

  function HearAll(parts: seq<Part>, hs: seq<Heard>): seq<Part> {
    if hs == [] then parts else Hear(HearAll(parts, hs[..|hs| - 1]), hs[|hs| - 1])
  }

  function Saids(syms: seq<Sym>): (r: seq<Heard>)
    ensures |r| == |syms|
  {
    seq(|syms|, i requires 0 <= i < |syms| => Said(syms[i]))
  }

  function Deltas(tcs: seq<DeltaToolCall>): (r: seq<Heard>)
    ensures |r| == |tcs|
  {
    seq(|tcs|, i requires 0 <= i < |tcs| => Delta(tcs[i]))
  }

  function ChunkText(chunk: ChatCompletionChunk): (text: string)
    ensures text != "" ==> chunk.choices != [] && chunk.choices[0].content == Some(text)
    ensures chunk.choices != [] && chunk.choices[0].content.Some? ==> text == chunk.choices[0].content.value
  {
    if chunk.choices != [] then GetOr(chunk.choices[0].content, "") else ""
  }

  function ChunkCalls(chunk: ChatCompletionChunk): seq<DeltaToolCall> {
    if chunk.choices != [] then chunk.choices[0].toolCalls else []
  }

  function HeardFrom(buf: string, inside: bool, chunks: seq<ChatCompletionChunk>): seq<Heard>
    decreases |chunks|
  {
    if chunks == [] then Saids(EndOfText(buf, inside).out) else
      var f := Feed(buf + ChunkText(chunks[0]), inside);
      Saids(f.out) + Deltas(ChunkCalls(chunks[0])) + HeardFrom(f.buf, f.inside, chunks[1..])
  }

  function PartBlock(p: Part, parse: string -> Option<Value>): ContentBlock {
    match p
    case Stream(html, text) => StreamBlock(html, text)
    case Call(_, id, name, json) => ToolUse(id, name, ParseToolArguments(json, parse))
  }

  function PartBlocks(parts: seq<Part>, parse: string -> Option<Value>): (r: seq<ContentBlock>)
    ensures |r| == |parts|
  {
    seq(|parts|, i requires 0 <= i < |parts| => PartBlock(parts[i], parse))
  }

  /** The content of the reply. */
  function Content(chunks: seq<ChatCompletionChunk>, parse: string -> Option<Value>): seq<ContentBlock> {
    PartBlocks(HearAll([], HeardFrom("", false, chunks)), parse)
  }

  lemma HearAllOne(parts: seq<Part>, hs: seq<Heard>, h: Heard)
    ensures HearAll(parts, hs + [h]) == Hear(HearAll(parts, hs), h)
  {
    hide Hear;
    assert (hs + [h])[..|hs|] == hs;
  }

  lemma {:induction false} LastStreamUpdate(parts: seq<Part>, i: nat, p: Part)
    requires i < |parts| && p.Stream? == parts[i].Stream?
    ensures LastStream(parts[i := p]) == LastStream(parts)
  {
    if i < |parts| - 1 {
      assert parts[i := p][..|parts| - 1] == parts[..|parts| - 1][i := p];
      LastStreamUpdate(parts[..|parts| - 1], i, p);
    } else {
      assert parts[i := p][..|parts| - 1] == parts[..|parts| - 1];
    }
  }

  lemma {:induction false} FindCallUpdate(parts: seq<Part>, i: nat, p: Part, index: nat)
    requires i < |parts| && p.Call? == parts[i].Call? && (p.Call? ==> p.index == parts[i].index)
    ensures FindCall(parts[i := p], index) == FindCall(parts, index)
  {
    if i < |parts| - 1 {
      assert parts[i := p][..|parts| - 1] == parts[..|parts| - 1][i := p];
      FindCallUpdate(parts[..|parts| - 1], i, p, index);
    } else {
      assert parts[i := p][..|parts| - 1] == parts[..|parts| - 1];
    }
  }

  lemma SnocParts(parts: seq<Part>, p: Part, index: nat)
    ensures LastStream(parts + [p]) == if p.Stream? then Some(|parts|) else LastStream(parts)
    ensures FindCall(parts + [p], index)
         == if p.Call? && p.index == index then Some(|parts|) else FindCall(parts, index)
  {
    assert (parts + [p])[..|parts|] == parts;
  }

  lemma HearTextLast(parts: seq<Part>, html: bool, s: string)
    ensures var r := HearText(parts, html, s);
            var i := LastStream(r);
            && i.Some? && r[i.value].html == html
            && (LastStream(parts).Some? && parts[LastStream(parts).value].html == html ==> i == LastStream(parts))
  {
    var i := LastStream(parts);
    if i.Some? && parts[i.value].html == html {
      LastStreamUpdate(parts, i.value, Stream(html, parts[i.value].text + s));
    } else {
      SnocParts(parts, Stream(html, s), 0);
    }
  }

  lemma HearTextTwice(parts: seq<Part>, html: bool, a: string, b: string)
    ensures HearText(HearText(parts, html, a), html, b) == HearText(parts, html, a + b)
  {
    var i := LastStream(parts);
    if i.Some? && parts[i.value].html == html {
      HearTextLast(parts, html, a);
      assert parts[i.value].text + a + b == parts[i.value].text + (a + b);
    } else {
      SnocParts(parts, Stream(html, a), 0);
    }
  }

  lemma {:induction false} HearString(parts: seq<Part>, hs: seq<Heard>, html: bool, s: string)
    requires s != ""
    ensures HearAll(parts, hs + Saids(Tag(html, s))) == HearText(HearAll(parts, hs), html, s)
  {
    hide HearText;
    var init, c := s[..|s| - 1], s[|s| - 1];
    assert s == init + [c];
    var before := hs + Saids(Tag(html, init));
    assert hs + Saids(Tag(html, s)) == before + [Said(Sym(html, c))];
    HearAllOne(parts, before, Said(Sym(html, c)));
    if init == "" {
      assert before == hs && s == [c];
    } else {
      HearString(parts, hs, html, init);
      HearTextTwice(HearAll(parts, hs), html, init, [c]);
    }
  }

  /** The text and html parts of a reply, calls removed. */
  function Streams(parts: seq<Part>): seq<ContentBlock> {
    if parts == [] then [] else
      var last := parts[|parts| - 1];
      Streams(parts[..|parts| - 1]) + if last.Stream? then [StreamBlock(last.html, last.text)] else []
  }

  function SaidOnly(hs: seq<Heard>): seq<Item> {
    if hs == [] then [] else
      var last := hs[|hs| - 1];
      SaidOnly(hs[..|hs| - 1]) + if last.Said? then [Glyph(last.sym)] else []
  }

  lemma {:induction false} StreamsOfText(parts: seq<Part>, html: bool, s: string)
    ensures Streams(HearText(parts, html, s)) == AddText(Streams(parts), html, s)
  {
    hide Streams;
    var new_ := Stream(html, s);
    StreamsSnoc(parts, new_);
    if parts == [] {
      StreamsOfNothing();
    } else {
      var init, last := parts[..|parts| - 1], parts[|parts| - 1];
      assert parts == init + [last];
      StreamsSnoc(init, last);
      if last.Stream? {
        if last.html == html {
          var grown := Stream(html, last.text + s);
          StreamsSnoc(init, grown);
          assert HearText(parts, html, s) == init + [grown];
        }
      } else {
        StreamsOfText(init, html, s);
        StreamsSnoc(init, new_);
        StreamsSnoc(HearText(init, html, s), last);
        if LastStream(init).Some? && init[LastStream(init).value].html == html {
          assert HearText(parts, html, s) == HearText(init, html, s) + [last];
        }
      }
    }
  }

  lemma StreamsOfNothing()
    ensures Streams([]) == []
  {
  }

  lemma StreamsSnoc(parts: seq<Part>, p: Part)
    ensures Streams(parts + [p]) == Streams(parts) + if p.Stream? then [StreamBlock(p.html, p.text)] else []
  {
    assert (parts + [p])[..|parts|] == parts;
  }

  lemma {:induction false} StreamsOfCall(parts: seq<Part>, i: nat, p: Part)
    requires i < |parts| && parts[i].Call? && p.Call?
    ensures Streams(parts[i := p]) == Streams(parts)
  {
    if i < |parts| - 1 {
      assert parts[i := p][..|parts| - 1] == parts[..|parts| - 1][i := p];
      StreamsOfCall(parts[..|parts| - 1], i, p);
    } else {
      assert parts[i := p][..|parts| - 1] == parts[..|parts| - 1];
    }
  }

  /** Tool deltas, however interleaved, leave no trace in the text and html of the reply. */
  lemma {:induction false} CallsDoNotDisturbText(hs: seq<Heard>)
    ensures Streams(HearAll([], hs)) == Assemble(SaidOnly(hs))
  {
    hide HearText, AddText;
    if hs != [] {
      var init, last := hs[..|hs| - 1], hs[|hs| - 1];
      CallsDoNotDisturbText(init);
      var parts := HearAll([], init);
      match last {
        case Said(sym) =>
          StreamsOfText(parts, sym.html, [sym.c]);
          AssembleOne(SaidOnly(init), Glyph(sym));
        case Delta(tc) =>
          assert SaidOnly(hs) == SaidOnly(init);
          var i := FindCall(parts, tc.index);
          if i.Some? {
            StreamsOfCall(parts, i.value, parts[i.value].(json := parts[i.value].json + ArgsOf(tc)));
          } else {
            assert HearCall(parts, tc)[..|parts|] == parts;
          }
      }
    }
  }

  // ---------------------------------------------------------------------------------------------
  // The client's view
  // ---------------------------------------------------------------------------------------------

  function SlotOf(p: Part, open: bool): Slot {
    match p
    case Stream(html, text) => Slot(StreamBlock(html, text), "", open)
    case Call(_, id, name, json) => Slot(ToolUse(id, name, EMPTY_OBJECT), json, open)
  }

  /** Calls from `from` on are open, and so is the part at `cur`. */
  predicate IsOpen(parts: seq<Part>, cur: Option<nat>, from: nat, i: nat)
    requires i < |parts|
  {
    (parts[i].Call? && i >= from) || cur == Some(i)
  }

  function Slots(parts: seq<Part>, cur: Option<nat>, from: nat): (r: seq<Slot>)
    ensures |r| == |parts|
  {
    seq(|parts|, i requires 0 <= i < |parts| => SlotOf(parts[i], IsOpen(parts, cur, from, i)))
  }

  function View(told: Option<Meta>, parts: seq<Part>, cur: Option<nat>, from: nat, stops: seq<nat>): Wire {
    Wire(if told.Some? then Streaming else Idle, Slots(parts, cur, from), stops, GetOr(told, NO_META))
  }

  function StartBlock(p: Part): ContentBlock {
    SlotOf(p, true).block
  }

  lemma StartStep(m: Meta, parts: seq<Part>, cur: Option<nat>, p: Part, stops: seq<nat>)
    requires cur.Some? ==> cur.value < |parts|
    requires if p.Call? then p.json == "" else cur == None
    ensures Apply(false, View(Some(m), parts, cur, 0, stops), ContentBlockStart(|parts|, StartBlock(p)))
         == Some(View(Some(m), parts + [p], if p.Call? then cur else Some(|parts|), 0, stops))
  {
    var cur' := if p.Call? then cur else Some(|parts|);
    assert forall i: nat :: i < |parts| ==> (parts + [p])[i] == parts[i];
    assert Slots(parts, cur, 0) + [Slot(StartBlock(p), "", true)] == Slots(parts + [p], cur', 0);
  }

  lemma TextStep(m: Meta, parts: seq<Part>, i: nat, html: bool, text: string, stops: seq<nat>)
    requires i < |parts| && parts[i].Stream? && parts[i].html == html
    ensures Apply(false, View(Some(m), parts, Some(i), 0, stops),
                  ContentBlockDelta(i, if html then HtmlSourceDelta(text) else TextDelta(text)))
         == Some(View(Some(m), parts[i := Stream(html, parts[i].text + text)], Some(i), 0, stops))
  {
    var q := parts[i := Stream(html, parts[i].text + text)];
    assert Slots(parts, Some(i), 0)[i := SlotOf(q[i], true)] == Slots(q, Some(i), 0);
  }

  lemma ArgsStep(m: Meta, parts: seq<Part>, cur: Option<nat>, i: nat, args: string, stops: seq<nat>)
    requires i < |parts| && parts[i].Call?
    ensures Apply(false, View(Some(m), parts, cur, 0, stops), ContentBlockDelta(i, InputJsonDelta(args)))
         == Some(View(Some(m), parts[i := parts[i].(json := parts[i].json + args)], cur, 0, stops))
  {
    var q := parts[i := parts[i].(json := parts[i].json + args)];
    assert Slots(parts, cur, 0)[i := SlotOf(q[i], true)] == Slots(q, cur, 0);
  }

  lemma StopStreamStep(m: Meta, parts: seq<Part>, i: nat, stops: seq<nat>)
    requires i < |parts| && parts[i].Stream?
    ensures Apply(false, View(Some(m), parts, Some(i), 0, stops), ContentBlockStop(i))
         == Some(View(Some(m), parts, None, 0, stops + [i]))
  {
    assert Slots(parts, Some(i), 0)[i := SlotOf(parts[i], false)] == Slots(parts, None, 0);
  }

  lemma StopCallStep(m: Meta, parts: seq<Part>, i: nat, stops: seq<nat>)
    requires i < |parts|
    ensures parts[i].Call? ==>
              Apply(false, View(Some(m), parts, None, i, stops), ContentBlockStop(i))
                  == Some(View(Some(m), parts, None, i + 1, stops + [i]))
    ensures !parts[i].Call? ==> View(Some(m), parts, None, i, stops) == View(Some(m), parts, None, i + 1, stops)
  {
    if parts[i].Call? {
      assert Slots(parts, None, i)[i := SlotOf(parts[i], false)] == Slots(parts, None, i + 1);
    } else {
      assert Slots(parts, None, i) == Slots(parts, None, i + 1);
    }
  }

  // ---------------------------------------------------------------------------------------------
  // The accumulator
  // ---------------------------------------------------------------------------------------------

  datatype BlockState =
    | TextState(buf: string)
    | HtmlState(source: string)
    | ToolState(id: string, name: string, jsonBuf: string)

  datatype CurrentStreamBlock = CurrentStreamBlock(index: nat, html: bool)

  function StateOf(p: Part): BlockState {
    match p
    case Stream(html, text) => if html then HtmlState(text) else TextState(text)
    case Call(_, id, name, json) => ToolState(id, name, json)
  }

  function StatesOf(parts: seq<Part>): (r: seq<BlockState>)
    ensures |r| == |parts|
  {
    seq(|parts|, i requires 0 <= i < |parts| => StateOf(parts[i]))
  }

  function Lookup(m: seq<Option<nat>>, i: nat): Option<nat> {
    if i < |m| then m[i] else None
  }

  class Accumulator {
    var started: bool
    var id: Option<string>
    var model: Option<string>
    var usage: Usage
    var stopReason: Option<StopReason>
    var blocks: seq<BlockState>
    var nextBlock: nat
    var currentStreamBlock: Option<CurrentStreamBlock>
    var toolBlockMap: seq<Option<nat>>
    var fenceParser: FenceParser

    /** What was heard, and the parts of the reply it makes. */
    ghost var heard: seq<Heard>
    ghost var parts: seq<Part>
    ghost var stops: seq<nat>

    ghost function Current(): Option<nat>
      reads this
    {
      if currentStreamBlock.None? then None else Some(currentStreamBlock.value.index)
    }

    /** What the client was told of the message, and what it will have been told at its end. */
    ghost function Told(): Option<Meta>
      reads `started, `id, `model
    {
      if started then Some(Meta(GetOr(id, ""), GetOr(model, ""), 0, None, None)) else None
    }

    ghost function Farewell(): Meta
      reads `id, `model, `usage, `stopReason
    {
      Meta(GetOr(id, ""), GetOr(model, ""), usage.outputTokens, stopReason, None)
    }

    /** What a client has rebuilt from every event emitted so far. */
    ghost function ClientView(): Wire
      reads this
    {
      View(Told(), parts, Current(), 0, stops)
    }

    /** The block vector holds the parts, the open block is the latest text or html part, and the
        tool index map finds the call with each index. */
    ghost predicate Linked()
      reads this
    {
      && blocks == StatesOf(parts) && nextBlock == |blocks|
      && Current() == LastStream(parts)
      && (currentStreamBlock.Some? ==> parts[currentStreamBlock.value.index].html == currentStreamBlock.value.html)
      && (forall i: nat :: Lookup(toolBlockMap, i) == FindCall(parts, i))
    }

    ghost predicate Coherent()
      reads this
    {
      Linked() && parts == HearAll([], heard)
    }

    ghost predicate Valid()
      reads this, fenceParser
    {
      Coherent() && fenceParser.Valid()
          && (!started ==> fenceParser.buf == "" && parts == [] && stops == [] && usage == NO_USAGE)
    }

    constructor ()
      ensures Valid() && fresh(fenceParser)
      ensures !started && heard == [] && currentStreamBlock == None && stopReason == None && usage == NO_USAGE
      ensures fenceParser.buf == "" && !fenceParser.insideCanvas
    {
      started, id, model, usage, stopReason := false, None, None, NO_USAGE, None;
      blocks, nextBlock, currentStreamBlock, toolBlockMap := [], 0, None, [];
      fenceParser := new FenceParser();
      heard, parts, stops := [], [], [];
    }

    method AllocBlock(state: BlockState) returns (idx: nat)
      modifies this`blocks, this`nextBlock
      ensures idx == old(nextBlock) && nextBlock == idx + 1 && blocks == old(blocks) + [state]
    {
      idx := nextBlock;
      blocks := blocks + [state];
      nextBlock := nextBlock + 1;
    }

    method CloseStreamBlock() returns (out: seq<StreamEvent>)
      requires currentStreamBlock.Some? ==> started && Current() == LastStream(parts)
      modifies this`currentStreamBlock, this`stops
      ensures currentStreamBlock == None
      ensures Replay(false, old(ClientView()), out) == Some(ClientView())
    {
      out := [];
      if currentStreamBlock.Some? {
        var cur := currentStreamBlock.value;
        StopStreamStep(Told().value, parts, cur.index, stops);
        ReplayOne(false, ClientView(), ContentBlockStop(cur.index));
        currentStreamBlock := None;
        stops := stops + [cur.index];
        out := out + [ContentBlockStop(cur.index)];
      }
    }

    /** Make the latest text or html block one of this kind: close one of the other kind, and
        open a new one unless one is open. */
    method SwitchStreamBlock(html: bool) returns (out: seq<StreamEvent>)
      requires Linked() && started
      modifies this`currentStreamBlock, this`stops, this`parts, this`blocks, this`nextBlock
      ensures Linked() && currentStreamBlock.Some? && currentStreamBlock.value.html == html
      ensures var i := old(LastStream(parts));
              parts
                == if i.Some? && old(parts)[i.value].html == html then old(parts) else old(parts) + [Stream(html, "")]
      ensures Replay(false, old(ClientView()), out) == Some(ClientView())
    {
      hide View, Replay, LastStream, FindCall, Slots;
      ghost var w0 := ClientView();
      ReplayNothing(false, w0);
      out := [];
      if currentStreamBlock.Some? && currentStreamBlock.value.html != html {
        out := CloseStreamBlock();
      }
      if currentStreamBlock.None? {
        ghost var blank := Stream(html, "");
        StartStep(Told().value, parts, None, blank, stops);
        ReplayNext(false, w0, out, ClientView(), ContentBlockStart(nextBlock, StreamBlock(html, "")));
        out := out + [ContentBlockStart(nextBlock, StreamBlock(html, ""))];
        var idx := AllocBlock(if html then HtmlState("") else TextState(""));
        currentStreamBlock := Some(CurrentStreamBlock(idx, html));
        SnocParts(parts, blank, 0);
        forall i: nat { SnocParts(parts, blank, i); }
        parts := parts + [blank];
        assert blocks == StatesOf(parts);
      }
    }

    method EmitStreamChunk(html: bool, text: string) returns (out: seq<StreamEvent>)
      requires Coherent() && started && text != ""
      modifies this`currentStreamBlock, this`stops, this`parts, this`heard, this`blocks, this`nextBlock
      ensures Coherent() && heard == old(heard) + Saids(Tag(html, text))
      ensures Replay(false, old(ClientView()), out) == Some(ClientView())
    {
      hide HearAll, View, Replay, Saids, Tag, LastStream, FindCall, Slots;
      HearString([], heard, html, text);
      ghost var w0, parts0 := ClientView(), parts;
      out := SwitchStreamBlock(html);
      var idx := currentStreamBlock.value.index;
      match blocks[idx] {
        case TextState(buf) => blocks := blocks[idx := TextState(buf + text)];
        case HtmlState(source) => blocks := blocks[idx := HtmlState(source + text)];
        case ToolState(_, _, _) =>
      }
      var delta := if html then HtmlSourceDelta(text) else TextDelta(text);
      TextStep(Told().value, parts, idx, html, text, stops);
      ReplayNext(false, w0, out, ClientView(), ContentBlockDelta(idx, delta));
      out := out + [ContentBlockDelta(idx, delta)];
      ghost var grown := Stream(html, parts[idx].text + text);
      forall i: nat { FindCallUpdate(parts, idx, grown, i); }
      LastStreamUpdate(parts, idx, grown);
      SnocParts(parts0, Stream(html, ""), 0);
      parts := parts[idx := grown];
      heard := heard + Saids(Tag(html, text));
      assert blocks == StatesOf(parts);
      assert "" + text == text;
    }

    method EmitFenceChunks(chunks: seq<FenceChunk>) returns (out: seq<StreamEvent>)
      requires Coherent() && Canonical(chunks) && (chunks != [] ==> started)
      modifies this`currentStreamBlock, this`stops, this`parts, this`heard, this`blocks, this`nextBlock
      ensures Coherent() && heard == old(heard) + Saids(Flat(chunks))
      ensures Replay(false, old(ClientView()), out) == Some(ClientView())
      ensures chunks == [] ==> parts == old(parts) && stops == old(stops)
    {
      hide Coherent, ClientView, Replay;
      out := [];
      ghost var w0 := ClientView();
      ReplayNothing(false, w0);
      var k := 0;
      while k < |chunks|
        invariant 0 <= k <= |chunks|
        invariant Coherent()
        invariant heard == old(heard) + Saids(Flat(chunks[..k]))
        invariant Replay(false, w0, out) == Some(ClientView())
        invariant k == 0 ==> parts == old(parts) && stops == old(stops)
      {
        var evs := EmitStreamChunk(chunks[k].Html?, chunks[k].payload);
        ReplayJoin(false, w0, out, evs);
        out := out + evs;
        assert chunks[..k + 1][..k] == chunks[..k];
        k := k + 1;
      }
      assert chunks[..k] == chunks;
    }

    /** One tool-call delta: the first of its index starts a block, argument text extends it. */
    method EmitToolDelta(tc: DeltaToolCall) returns (out: seq<StreamEvent>)
      requires Coherent() && started
      modifies this`toolBlockMap, this`parts, this`heard, this`blocks, this`nextBlock
      ensures Coherent() && heard == old(heard) + [Delta(tc)]
      ensures Replay(false, old(ClientView()), out) == Some(ClientView())
    {
      hide HearAll, View, Replay, LastStream, FindCall, Slots;
      HearAllOne([], heard, Delta(tc));
      ghost var parts0 := parts;
      var oi := tc.index;
      while |toolBlockMap| <= oi
        modifies this`toolBlockMap
        invariant forall i: nat :: Lookup(toolBlockMap, i) == FindCall(parts, i)
      {
        toolBlockMap := toolBlockMap + [None];
      }
      out := StartTool(tc);
      SnocParts(parts0, Call(tc.index, GetOr(tc.id, ""), NameOf(tc), ""), oi);
      assert Lookup(toolBlockMap, oi) == FindCall(parts, oi);
      ghost var w0 := old(ClientView());
      var blockIdx := toolBlockMap[oi].value;
      if ArgsOf(tc) != "" {
        var evs := AppendArgs(blockIdx, ArgsOf(tc));
        ReplayJoin(false, w0, out, evs);
        out := out + evs;
      }
      heard := heard + [Delta(tc)];
      HearCallEmpty(parts0, tc);
    }

    /** Argument text for a call. */
    method AppendArgs(blockIdx: nat, args: string) returns (out: seq<StreamEvent>)
      requires Linked() && started && blockIdx < |parts| && parts[blockIdx].Call?
      modifies this`parts, this`blocks
      ensures Linked()
      ensures parts == old(parts)[blockIdx := old(parts)[blockIdx].(json := old(parts)[blockIdx].json + args)]
      ensures Replay(false, old(ClientView()), out) == Some(ClientView())
    {
      hide View, Replay, LastStream, FindCall, Slots;
      var state := blocks[blockIdx];
      if state.ToolState? {
        blocks := blocks[blockIdx := state.(jsonBuf := state.jsonBuf + args)];
      }
      out := [ContentBlockDelta(blockIdx, InputJsonDelta(args))];
      ArgsStep(Told().value, parts, Current(), blockIdx, args, stops);
      ReplayOne(false, ClientView(), out[0]);
      ghost var grown := parts[blockIdx].(json := parts[blockIdx].json + args);
      forall i: nat { FindCallUpdate(parts, blockIdx, grown, i); }
      LastStreamUpdate(parts, blockIdx, grown);
      parts := parts[blockIdx := grown];
      assert blocks == StatesOf(parts);
    }

    /** The first delta of a call starts its block. */
    method StartTool(tc: DeltaToolCall) returns (out: seq<StreamEvent>)
      requires Linked() && started && tc.index < |toolBlockMap|
      modifies this`toolBlockMap, this`parts, this`blocks, this`nextBlock
      ensures Linked() && |toolBlockMap| == old(|toolBlockMap|) && toolBlockMap[tc.index].Some?
      ensures parts == if FindCall(old(parts), tc.index).Some? then old(parts)
                       else old(parts) + [Call(tc.index, GetOr(tc.id, ""), NameOf(tc), "")]
      ensures FindCall(old(parts), tc.index).Some? ==> FindCall(parts, tc.index) == FindCall(old(parts), tc.index)
      ensures Replay(false, old(ClientView()), out) == Some(ClientView())
    {
      hide View, Replay, LastStream, FindCall, Slots;
      ghost var w0 := ClientView();
      ReplayNothing(false, w0);
      out := [];
      assert Lookup(toolBlockMap, tc.index) == FindCall(parts, tc.index);
      if toolBlockMap[tc.index].None? {
        var id := GetOr(tc.id, "");
        var name := NameOf(tc);
        ghost var call := Call(tc.index, id, name, "");
        StartStep(Told().value, parts, Current(), call, stops);
        ReplayOne(false, w0, ContentBlockStart(nextBlock, ToolUse(id, name, EMPTY_OBJECT)));
        var blockIdx := AllocBlock(ToolState(id, name, ""));
        toolBlockMap := toolBlockMap[tc.index := Some(blockIdx)];
        out := [ContentBlockStart(blockIdx, ToolUse(id, name, EMPTY_OBJECT))];
        SnocParts(parts, call, 0);
        forall i: nat { SnocParts(parts, call, i); }
        parts := parts + [call];
        assert blocks == StatesOf(parts);
      }
    }

    /** The first chunk announces the message. */
    method Begin(chunk: ChatCompletionChunk) returns (events: seq<StreamEvent>)
      requires Valid()
      modifies this`started, this`id, this`model
      ensures Valid() && started
      ensures Replay(false, old(ClientView()), events) == Some(ClientView())
      ensures if old(started) then id == old(id) && model == old(model)
              else id == Some(chunk.id) && model == Some(chunk.model)
    {
      hide HearAll, Replay, View, LastStream, FindCall, StatesOf, Held;
      events := [];
      ReplayNothing(false, ClientView());
      if !started {
        var start := MessageStart(chunk.id, chunk.model, usage);
        BeginStep(parts, Current(), stops, start);
        ReplayOne(false, ClientView(), start);
        started := true;
        id, model := Some(chunk.id), Some(chunk.model);
        events := [start];
      }
    }

    /** A text delta goes through the fence parser; an empty one is skipped. */
    method ConsumeText(text: string) returns (events: seq<StreamEvent>)
      requires Valid() && started
      modifies this`currentStreamBlock, this`stops, this`parts, this`heard, this`blocks, this`nextBlock, fenceParser
      ensures Valid()
      ensures var f := Feed(old(fenceParser.buf) + text, old(fenceParser.insideCanvas));
              heard == old(heard) + Saids(f.out) && fenceParser.buf == f.buf && fenceParser.insideCanvas == f.inside
      ensures Replay(false, old(ClientView()), events) == Some(ClientView())
    {
      hide HearAll, Replay, Feed, Held, Saids, View, LastStream, FindCall, StatesOf, Lookup;
      events := [];
      ReplayNothing(false, ClientView());
      NothingHeard();
      if text == "" {
        FeedNothing(fenceParser.buf, fenceParser.insideCanvas);
      } else {
        var fenceChunks := fenceParser.Push(text);
        events := EmitFenceChunks(fenceChunks);
      }
    }

    method ConsumeChunk(chunk: ChatCompletionChunk) returns (events: seq<StreamEvent>)
      requires Valid()
      modifies this, fenceParser
      ensures Valid() && started && fenceParser == old(fenceParser)
      ensures var f := Feed(old(fenceParser.buf) + ChunkText(chunk), old(fenceParser.insideCanvas));
              && heard == old(heard) + Saids(f.out) + Deltas(ChunkCalls(chunk))
              && fenceParser.buf == f.buf && fenceParser.insideCanvas == f.inside
      ensures Replay(false, old(ClientView()), events) == Some(ClientView())
      ensures if old(started) then id == old(id) && model == old(model)
              else id == Some(chunk.id) && model == Some(chunk.model)
      ensures stopReason == if ChunkReason(chunk).Some? then ChunkReason(chunk) else old(stopReason)
      ensures usage == if chunk.usage.Some? then UsageFromOpenAi(chunk.usage.value) else old(usage)
    {
      hide Replay, Feed, Held, Deltas, Saids, ClientView, Coherent, StopReasonFromStr;
      ghost var w0 := ClientView();
      events := Begin(chunk);
      TakeUsage(chunk);
      if chunk.choices == [] {
        FeedNothing(fenceParser.buf, fenceParser.insideCanvas);
        NothingHeard();
        return;
      }
      var choice := chunk.choices[0];
      TakeReason(choice);
      var evs := ConsumeChoice(choice);
      ReplayJoin(false, w0, events, evs);
      events := events + evs;
    }

    method TakeUsage(chunk: ChatCompletionChunk)
      requires Valid() && started
      modifies this`usage
      ensures Valid() && ClientView() == old(ClientView())
      ensures usage == if chunk.usage.Some? then UsageFromOpenAi(chunk.usage.value) else old(usage)
    {
      hide HearAll, View, LastStream, FindCall, StatesOf, Held, Lookup;
      if chunk.usage.Some? {
        usage := UsageFromOpenAi(chunk.usage.value);
      }
    }

    method TakeReason(choice: Choice)
      requires Valid() && started
      modifies this`stopReason
      ensures Valid() && ClientView() == old(ClientView())
      ensures stopReason == if choice.finishReason.Some? then Some(StopReasonFromStr(choice.finishReason.value))
              else old(stopReason)
    {
      hide HearAll, View, LastStream, FindCall, StatesOf, Held, Lookup, StopReasonFromStr;
      if choice.finishReason.Some? {
        stopReason := Some(StopReasonFromStr(choice.finishReason.value));
      }
    }

    /** The delta of a choice: its text, then its tool calls. */
    method ConsumeChoice(choice: Choice) returns (events: seq<StreamEvent>)
      requires Valid() && started
      modifies this`currentStreamBlock, this`stops, this`toolBlockMap, this`parts, this`heard, this`blocks,
               this`nextBlock, fenceParser
      ensures Valid()
      ensures var f := Feed(old(fenceParser.buf) + GetOr(choice.content, ""), old(fenceParser.insideCanvas));
              && heard == old(heard) + Saids(f.out) + Deltas(choice.toolCalls)
              && fenceParser.buf == f.buf && fenceParser.insideCanvas == f.inside
      ensures Replay(false, old(ClientView()), events) == Some(ClientView())
    {
      hide Replay, Feed, Held, Deltas, Saids, ClientView, Coherent;
      ghost var w0 := ClientView();
      events := ConsumeText(GetOr(choice.content, ""));
      var evs := EmitToolDeltas(choice.toolCalls);
      ReplayJoin(false, w0, events, evs);
      events := events + evs;
    }

    method EmitToolDeltas(tcs: seq<DeltaToolCall>) returns (out: seq<StreamEvent>)
      requires Coherent() && started
      modifies this`toolBlockMap, this`parts, this`heard, this`blocks, this`nextBlock
      ensures Coherent() && heard == old(heard) + Deltas(tcs)
      ensures Replay(false, old(ClientView()), out) == Some(ClientView())
    {
      hide Coherent, ClientView, Replay;
      out := [];
      ghost var w0 := ClientView();
      ReplayNothing(false, w0);
      var k := 0;
      while k < |tcs|
        invariant 0 <= k <= |tcs|
        invariant Coherent()
        invariant heard == old(heard) + Deltas(tcs[..k])
        invariant Replay(false, w0, out) == Some(ClientView())
      {
        var evs := EmitToolDelta(tcs[k]);
        ReplayJoin(false, w0, out, evs);
        out := out + evs;
        assert Deltas(tcs[..k + 1]) == Deltas(tcs[..k]) + [Delta(tcs[k])];
        k := k + 1;
      }
      assert tcs[..k] == tcs;
    }

    /** Stop every tool-use block. */
    method CloseTools(streamIdx: Option<nat>) returns (out: seq<StreamEvent>)
      requires blocks == StatesOf(parts)
      requires currentStreamBlock == None
               && (streamIdx.Some? ==> streamIdx.value < |parts| && parts[streamIdx.value].Stream?)
      modifies this`stops
      ensures started ==> Replay(false, old(ClientView()), out) == Some(View(Told(), parts, None, |parts|, stops))
      ensures blocks == [] ==> out == []
    {
      hide Replay, View;
      out := [];
      ghost var w0 := ClientView();
      ReplayNothing(false, w0);
      for i := 0 to |blocks|
        invariant i == 0 ==> out == []
        invariant started ==> Replay(false, w0, out) == Some(View(Told(), parts, None, i, stops))
      {
        StopCallStep(GetOr(Told(), NO_META), parts, i, stops);
        if streamIdx != Some(i) && blocks[i].ToolState? {
          if started {
            ReplayNext(false, w0, out, View(Told(), parts, None, i, stops), ContentBlockStop(i));
          }
          out := out + [ContentBlockStop(i)];
          stops := stops + [i];
        }
      }
    }

    /** What the fence parser holds back comes out. */
    method Drain() returns (events: seq<StreamEvent>)
      requires Valid()
      modifies this`fenceParser, this`currentStreamBlock, this`stops, this`parts, this`heard, this`blocks,
               this`nextBlock, fenceParser
      ensures Coherent() && (!started ==> parts == [])
      ensures heard == old(heard) + Saids(EndOfText(old(fenceParser.buf), old(fenceParser.insideCanvas)).out)
      ensures Replay(false, old(ClientView()), events) == Some(ClientView())
    {
      hide HearAll, Replay, Line, Saids, View, LastStream, FindCall, StatesOf, Held, Lookup;
      var finish := fenceParser.Finish();
      fenceParser := new FenceParser();
      FlatNothing(finish.chunks);
      events := EmitFenceChunks(finish.chunks);
    }

    /** End of stream: drain the fence parser, close the open text or html block, stop every call. */
    method Flush() returns (events: seq<StreamEvent>)
      requires Valid()
      modifies this, fenceParser
      ensures started == old(started) && id == old(id) && model == old(model) && usage == old(usage)
      ensures stopReason == Some(GetOr(old(stopReason), EndTurn))
      ensures heard == old(heard) + Saids(EndOfText(old(fenceParser.buf), old(fenceParser.insideCanvas)).out)
      ensures blocks == StatesOf(parts) && parts == HearAll([], heard)
      ensures started ==>
                Replay(false, old(ClientView()), events)
                    == Some(View(Told(), parts, None, |parts|, stops).(phase := Ended, meta := Farewell()))
    {
      hide HearAll, Replay, Line, Saids, View, LastStream, FindCall, StatesOf, Held;
      ghost var w0 := ClientView();
      events := Drain();
      var streamIdx := if currentStreamBlock.Some? then Some(currentStreamBlock.value.index) else None;
      var evs := CloseStreamBlock();
      ReplayJoin(false, w0, events, evs);
      events := events + evs;
      evs := CloseTools(streamIdx);
      if started {
        ReplayJoin(false, w0, events, evs);
      }
      events := events + evs;
      evs := EndMessage();
      if started {
        ReplayJoin(false, w0, events, evs);
      }
      events := events + evs;
    }

    /** The closing MessageDelta and MessageStop. */
    method EndMessage() returns (events: seq<StreamEvent>)
      modifies this`stopReason
      ensures stopReason == Some(GetOr(old(stopReason), EndTurn))
      ensures var w := View(Told(), parts, None, |parts|, stops);
              started ==> Replay(false, w, events) == Some(w.(phase := Ended, meta := Farewell()))
    {
      hide Replay, Apply, Slots;
      stopReason := Some(GetOr(stopReason, EndTurn));
      var delta := MessageDelta(stopReason, None, UsageDelta(Some(usage.outputTokens), None));
      ghost var w := View(Told(), parts, None, |parts|, stops);
      if started {
        EndStep(Told().value, parts, stops, delta);
        ReplayOne(false, w, delta);
        ReplayNext(false, w, [delta], w.(meta := Farewell()), MessageStop);
      }
      events := [delta] + [MessageStop];
    }

    method Finish(parse: string -> Option<Value>) returns (r: Result<CompleteResponse, ProviderError>)
      requires blocks == StatesOf(parts)
      ensures !started ==> r == Err(Internal("stream decode error: stream produced no chunks"))
      ensures started ==> r == Ok(CompleteResponse(GetOr(id, ""), GetOr(model, ""), PartBlocks(parts, parse),
                                                   GetOr(stopReason, EndTurn), None, usage))
    {
      if !started {
        return Err(Internal("stream decode error: stream produced no chunks"));
      }
      var content := [];
      for k := 0 to |blocks|
        invariant content == PartBlocks(parts, parse)[..k]
      {
        match blocks[k] {
          case TextState(buf) => content := content + [TextBlock(buf)];
          case HtmlState(source) => content := content + [HtmlBlock(source)];
          case ToolState(id, name, jsonBuf) =>
            content := content + [ToolUse(id, name, ParseToolArguments(jsonBuf, parse))];
        }
      }
      assert content == PartBlocks(parts, parse);
      return Ok(CompleteResponse(GetOr(id, ""), GetOr(model, ""), content, GetOr(stopReason, EndTurn), None, usage));
    }
  }

  function UsageFromOpenAi(u: UsageStats): (r: Usage)
    ensures r.inputTokens == u.promptTokens && r.outputTokens == u.completionTokens
    ensures r.cacheCreation == r.cacheRead == None
  {
    Usage(u.promptTokens, u.completionTokens, None, None)
  }

  function ChunkReason(chunk: ChatCompletionChunk): Option<StopReason> {
    if chunk.choices != [] && chunk.choices[0].finishReason.Some?
    then Some(StopReasonFromStr(chunk.choices[0].finishReason.value)) else None
  }

  lemma BeginStep(parts: seq<Part>, cur: Option<nat>, stops: seq<nat>, e: StreamEvent)
    requires e.MessageStart?
    ensures Apply(false, View(None, parts, cur, 0, stops), e)
         == Some(View(Some(Introduced(e.id, e.model, e.usage)), parts, cur, 0, stops))
  {
  }

  lemma EndStep(m: Meta, parts: seq<Part>, stops: seq<nat>, e: StreamEvent)
    requires e.MessageDelta?
    ensures var w := View(Some(m), parts, None, |parts|, stops);
            var v := w.(meta := Amended(m, e.stopReason, e.stopSequence, e.usageDelta));
            Apply(false, w, e) == Some(v) && Apply(false, v, MessageStop) == Some(v.(phase := Ended))
  {
  }

  lemma NothingHeard()
    ensures Saids([]) == [] && Deltas([]) == []
  {
  }

  lemma HearCallEmpty(parts: seq<Part>, tc: DeltaToolCall)
    ensures var i := FindCall(parts, tc.index);
            && (i.Some? ==> ArgsOf(tc) == "" ==> HearCall(parts, tc) == parts)
            && (i.None? ==> "" + ArgsOf(tc) == ArgsOf(tc))
  {
    var i := FindCall(parts, tc.index);
    if i.Some? {
      assert parts[i.value].json + "" == parts[i.value].json;
      assert parts[i.value := parts[i.value]] == parts;
    }
  }

  // ---------------------------------------------------------------------------------------------
  // Whole runs
  // ---------------------------------------------------------------------------------------------

  /** The last finish reason reported. */
  function LastReason(chunks: seq<ChatCompletionChunk>): Option<StopReason> {
    if chunks == [] then None
    else if ChunkReason(chunks[|chunks| - 1]).Some? then ChunkReason(chunks[|chunks| - 1])
    else LastReason(chunks[..|chunks| - 1])
  }

  /** The last usage reported. */
  function LastUsage(chunks: seq<ChatCompletionChunk>): Usage {
    if chunks == [] then NO_USAGE
    else if chunks[|chunks| - 1].usage.Some? then UsageFromOpenAi(chunks[|chunks| - 1].usage.value)
    else LastUsage(chunks[..|chunks| - 1])
  }

  /** The reply to some chunks: the identity of the first, the last reason and usage reported. */
  function Reply(chunks: seq<ChatCompletionChunk>, parse: string -> Option<Value>): CompleteResponse
    requires chunks != []
  {
    CompleteResponse(chunks[0].id, chunks[0].model, Content(chunks, parse), GetOr(LastReason(chunks), EndTurn), None,
                     LastUsage(chunks))
  }

  /** Consume a whole stream.  For every chunk sequence, with text and parallel tool-call deltas
      interleaved in any way, a client can replay the emitted events, every block is closed at the
      end, the final content is index by index what the client rebuilt, and it is the content of
      what the chunks said. */
  method ConsumeSse(parse: string -> Option<Value>, chunks: seq<ChatCompletionChunk>)
    returns (events: seq<StreamEvent>, result: Result<CompleteResponse, ProviderError>)
    ensures result == if chunks == [] then Err(Internal("stream decode error: stream produced no chunks"))
            else Ok(Reply(chunks, parse))
    ensures chunks != [] ==>
              var w := Replay(false, START, events);
              && w.Some? && w.value.phase.Ended? && NoneOpen(w.value.slots) && StopsOk(w.value)
              && Tells(w.value.meta, result.value) && w.value.meta.tokens == result.value.usage.outputTokens
              && result.value.content == AssembledAll(w.value.slots, parse)
  {
    hide HearAll, HeardFrom, Replay, Feed, Held, Deltas, Saids, EndOfText, ChunkReason, Content, PartBlocks, Slots;
    hide Apply;
    var acc := new Accumulator();
    events := [];
    ReplayNothing(false, START);
    assert acc.ClientView() == START by { assert Slots([], None, 0) == []; }
    var k := 0;
    while k < |chunks|
      invariant 0 <= k <= |chunks|
      invariant acc.Valid() && fresh(acc) && fresh(acc.fenceParser)
      invariant acc.started <==> k > 0
      invariant HeardFrom("", false, chunks)
                == acc.heard + HeardFrom(acc.fenceParser.buf, acc.fenceParser.insideCanvas, chunks[k..])
      invariant Replay(false, START, events) == Some(acc.ClientView())
      invariant k > 0 ==> acc.id == Some(chunks[0].id) && acc.model == Some(chunks[0].model)
      invariant acc.stopReason == LastReason(chunks[..k]) && acc.usage == LastUsage(chunks[..k])
    {
      ghost var heard, buf, inside := acc.heard, acc.fenceParser.buf, acc.fenceParser.insideCanvas;
      var evs := acc.ConsumeChunk(chunks[k]);
      ReplayJoin(false, START, events, evs);
      events := events + evs;
      HeardStep(heard, buf, inside, chunks[k..]);
      assert chunks[k..][1..] == chunks[k + 1..];
      assert chunks[..k + 1][..k] == chunks[..k];
      k := k + 1;
    }
    assert chunks[..k] == chunks;
    EndHeard(acc.fenceParser.buf, acc.fenceParser.insideCanvas);
    var evs := acc.Flush();
    ReplayJoin(false, START, events, evs);
    events := events + evs;
    result := acc.Finish(parse);
    AllClosed(acc.parts, parse);
    ContentIs(chunks, parse);
    if chunks != [] {
      StopsExact(false, START, events);
    }
  }

  lemma EndHeard(buf: string, inside: bool)
    ensures HeardFrom(buf, inside, []) == Saids(EndOfText(buf, inside).out)
  {
  }

  lemma ContentIs(chunks: seq<ChatCompletionChunk>, parse: string -> Option<Value>)
    ensures Content(chunks, parse) == PartBlocks(HearAll([], HeardFrom("", false, chunks)), parse)
  {
  }

  lemma AllClosed(parts: seq<Part>, parse: string -> Option<Value>)
    ensures NoneOpen(Slots(parts, None, |parts|))
    ensures AssembledAll(Slots(parts, None, |parts|), parse) == PartBlocks(parts, parse)
  {
  }

  lemma HeardStep(heard: seq<Heard>, buf: string, inside: bool, chunks: seq<ChatCompletionChunk>)
    requires chunks != []
    ensures var f := Feed(buf + ChunkText(chunks[0]), inside);
            heard + HeardFrom(buf, inside, chunks)
              == heard + Saids(f.out) + Deltas(ChunkCalls(chunks[0])) + HeardFrom(f.buf, f.inside, chunks[1..])
  {
  }
}
