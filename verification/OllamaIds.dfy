/** The ids that the Ollama adapter makes up for tool calls (crates/provider-local/src/stream.rs): they carry the
    position of the call inside its chunk, so calls in different chunks can share one. */
module OllamaIds {
  import opened Base
  import opened Fence
  import opened Spp
  import Ollama

  /** A call and its position in its chunk. */
  datatype Placed = Placed(call: Ollama.ToolCall, position: nat)

  function PlacedCalls(tools: seq<Ollama.ToolCall>): (r: seq<Placed>)
    ensures |r| == |tools|
  {
    seq(|tools|, i requires 0 <= i < |tools| => Placed(tools[i], i))
  }

  /** All calls of a reply, in order. */
  function Calls(chunks: seq<Ollama.ChatResponse>): seq<Placed> {
    if chunks == [] then []
    else
      var m := chunks[0].message;
      PlacedCalls(if m.Some? then m.value.toolCalls else []) + Calls(chunks[1..])
  }

  function Blocks(calls: seq<Placed>): (r: seq<ContentBlock>)
    ensures |r| == |calls|
    ensures forall k | 0 <= k < |calls| :: r[k] == Ollama.ToolBlock(calls[k].call, calls[k].position)
  {
    seq(|calls|, k requires 0 <= k < |calls| => Ollama.ToolBlock(calls[k].call, calls[k].position))
  }

  /** Which calls get the same id: the same id of their own, or, without one, the same name at the same position,
      or an id of its own that reads like one made up. */
  predicate Clash(a: Placed, b: Placed) {
    if a.call.id.Some? && b.call.id.Some? then a.call.id == b.call.id
    else if a.call.id.None? && b.call.id.None? then a.call.name == b.call.name && a.position == b.position
    else if a.call.id.Some? then a.call.id.value == MadeUp(b)
    else b.call.id.value == MadeUp(a)
  }

  predicate NoneClash(calls: seq<Placed>) {
    forall i, j | 0 <= i < j < |calls| :: !Clash(calls[i], calls[j])
  }

  function MadeUp(c: Placed): string {
    "ollama-" + c.call.name + "-" + Decimal(c.position)
  }

  predicate DistinctIds(uses: seq<ContentBlock>)
    requires forall u <- uses :: u.ToolUse?
  {
    forall i, j | 0 <= i < j < |uses| :: uses[i].id != uses[j].id
  }

  lemma {:induction false} ToolItemsSay(tools: seq<Ollama.ToolCall>)
    ensures ToolsSaid(Ollama.ToolItems(tools)) == Blocks(PlacedCalls(tools))
  {
    hide Ollama.ToolBlock;
    if tools != [] {
      var n := |tools| - 1;
      assert Ollama.ToolItems(tools)[..n] == Ollama.ToolItems(tools[..n]);
      ToolItemsSay(tools[..n]);
      assert PlacedCalls(tools)[..n] == PlacedCalls(tools[..n]);
      IsToolUse(tools[n], n);
    }
  }

  lemma IsToolUse(tc: Ollama.ToolCall, position: nat)
    ensures Ollama.ToolBlock(tc, position).ToolUse?
  {
  }

  lemma {:induction false} ItemsSay(buf: string, inside: bool, chunks: seq<Ollama.ChatResponse>)
    ensures ToolsSaid(Ollama.Items(buf, inside, chunks)) == Blocks(Calls(chunks))
    decreases |chunks|
  {
    hide Feed, EndOfText, Glyphs, ToolsSaid, Ollama.ToolItems, Ollama.ToolBlock, PlacedCalls, Ollama.ChunkText;
    if chunks == [] {
      GlyphsSayNoTools(EndOfText(buf, inside).out);
    } else {
      var f := Feed(buf + Ollama.ChunkText(chunks[0]), inside);
      var text, tools := Glyphs(f.out), Ollama.ToolItems(Ollama.ChunkTools(chunks[0]));
      GlyphsSayNoTools(f.out);
      ToolItemsSay(Ollama.ChunkTools(chunks[0]));
      ItemsSay(f.buf, f.inside, chunks[1..]);
      ToolsSaidJoin(text, tools);
      ToolsSaidJoin(text + tools, Ollama.Items(f.buf, f.inside, chunks[1..]));
    }
  }

  lemma SameIdIsClash(a: Placed, b: Placed)
    ensures Ollama.ToolBlock(a.call, a.position).id == Ollama.ToolBlock(b.call, b.position).id <==> Clash(a, b)
  {
    DashedInjective("ollama-", a.call.name, a.position, b.call.name, b.position);
  }

  /** The ids of a reply are distinct exactly when no two of its calls clash. */
  lemma IdsInOneReply(chunks: seq<Ollama.ChatResponse>)
    ensures DistinctIds(ToolUses(Assemble(Ollama.Items("", false, chunks)))) <==> NoneClash(Calls(chunks))
  {
    hide Ollama.Items, Assemble, Calls, Clash, Ollama.ToolBlock, ToolUses;
    var items, calls := Ollama.Items("", false, chunks), Calls(chunks);
    AssembledTools(items);
    ItemsSay("", false, chunks);
    var uses := ToolUses(Assemble(items));
    forall i, j | 0 <= i < j < |calls| ensures uses[i].id != uses[j].id <==> !Clash(calls[i], calls[j]) {
      SameIdIsClash(calls[i], calls[j]);
      assert uses[i] == Blocks(calls)[i] && uses[j] == Blocks(calls)[j];
    }
  }

  /** Every call of every chunk is in the reply, in order, with its own name, its own arguments and, if it has one,
      its own id; otherwise with one made up from its name and its place. */
  lemma CallsArrive(chunks: seq<Ollama.ChatResponse>)
    requires chunks != []
    ensures var uses, calls := ToolUses(Ollama.Reply(chunks).content), Calls(chunks);
            && |uses| == |calls|
            && forall k | 0 <= k < |calls| ::
                 && uses[k].name == calls[k].call.name && uses[k].input == calls[k].call.arguments
                 && uses[k].id == if calls[k].call.id.Some? then calls[k].call.id.value else MadeUp(calls[k])
  {
    hide Ollama.Items, Assemble, Calls, ToolUses;
    AssembledTools(Ollama.Items("", false, chunks));
    ItemsSay("", false, chunks);
  }

  /** Ids are shared when one chunk with a call comes twice. */
  lemma RepeatedChunk(chunk: Ollama.ChatResponse)
    requires Ollama.ChunkTools(chunk) != []
    ensures !DistinctIds(ToolUses(Assemble(Ollama.Items("", false, [chunk, chunk]))))
  {
    hide Ollama.Items, Assemble, ToolUses;
    var tools := Ollama.ChunkTools(chunk);
    var twice, once: seq<Ollama.ChatResponse> := [chunk, chunk], [chunk];
    assert twice[1..] == once && once[1..] == [];
    var calls := Calls(twice);
    assert Calls(once) == PlacedCalls(tools) + Calls(once[1..]);
    assert calls == PlacedCalls(tools) + Calls(once);
    assert calls[0] == calls[|tools|] && Clash(calls[0], calls[|tools|]);
    IdsInOneReply(twice);
  }
}
