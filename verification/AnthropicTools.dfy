/** Tool inputs in the Anthropic adapter (crates/provider-anthropic/src/stream.rs): a tool block can be started with
    an input, which the client is sent but the reply does not keep. */
module AnthropicTools {
  import opened Base
  import opened Fence
  import opened Spp
  import opened Anthropic

  /** The starts of tool blocks, in order. */
  function ToolStarts(events: seq<UpEvent>): (r: seq<UpEvent>)
    ensures forall e <- r :: e.UpBlockStart? && e.block.UpToolUse?
  {
    if events == [] then []
    else
      var last := events[|events| - 1];
      ToolStarts(events[..|events| - 1]) + if last.UpBlockStart? && last.block.UpToolUse? then [last] else []
  }

  /** The input deltas for one upstream index, joined. */
  function Joined(events: seq<UpEvent>, i: nat): string {
    if events == [] then ""
    else
      var last := events[|events| - 1];
      Joined(events[..|events| - 1], i)
      + if last.UpBlockDelta? && last.index == i && last.delta.UpInputJsonDelta? then last.delta.partialJson else ""
  }

  /** Every tool either was started with no input or an empty one, or the deltas for its input join to something. */
  predicate InputsKept(events: seq<UpEvent>) {
    forall e <- ToolStarts(events) ::
      Joined(events, e.index) != "" || GetOr(e.block.input, EMPTY_OBJECT) == EMPTY_OBJECT
  }

  // ---------------------------------------------------------------------------------------------
  // The tools of a run
  // ---------------------------------------------------------------------------------------------

  function ToolOf(events: seq<UpEvent>, e: UpEvent): ToolTold
    requires e.UpBlockStart? && e.block.UpToolUse?
  {
    ToolTold(e.block.id, e.block.name, GetOr(e.block.input, EMPTY_OBJECT), Joined(events, e.index))
  }

  function ToolsTold(events: seq<UpEvent>): (r: seq<ToolTold>)
    ensures |r| == |ToolStarts(events)|
  {
    var starts := ToolStarts(events);
    seq(|starts|, k requires 0 <= k < |starts| => ToolOf(events, starts[k]))
  }

  /** Which blocks have been started, and which of them is pending. */
  ghost predicate Placed(events: seq<UpEvent>, u: Upstream) {
    var starts := ToolStarts(events);
    && PendingUsed(u)
    && (forall e <- starts :: e.index in u.used)
    && (forall i: nat :: i !in u.used ==> Joined(events, i) == "")
    && (forall j, k :: 0 <= j < k < |starts| ==> starts[j].index != starts[k].index)
    && (u.pending.PendingTool? ==> starts != [] && starts[|starts| - 1].index == u.pending.index)
  }

  lemma Snoc(events: seq<UpEvent>, e: UpEvent, i: nat)
    ensures ToolStarts(events + [e]) == ToolStarts(events) + if e.UpBlockStart? && e.block.UpToolUse? then [e] else []
    ensures Joined(events + [e], i)
         == if e.UpBlockDelta? && e.index == i && e.delta.UpInputJsonDelta? then Joined(events, i) + e.delta.partialJson
            else Joined(events, i)
  {
    assert (events + [e])[..|events|] == events;
  }

  /** The tools that a run has told, read off its starts and deltas. */
  lemma {:induction false} ToolsAreTold(events: seq<UpEvent>, parse: string -> Option<Value>)
    requires WellFormed(events, parse)
    ensures var u := HearAll(QUIET, events, parse).value;
            u.tools == ToolsTold(events) && Placed(events, u)
  {
    hide Hear, HearAll, Placed;
    if events == [] {
      NoTools(parse);
    } else {
      var n := |events| - 1;
      assert events == events[..n] + [events[n]];
      HearAllSnoc(QUIET, events[..n], events[n], parse);
      ToolsAreTold(events[..n], parse);
      ToolsStep(events[..n], HearAll(QUIET, events[..n], parse).value, events[n], parse);
    }
  }

  lemma NoTools(parse: string -> Option<Value>)
    ensures HearAll(QUIET, [], parse) == Some(QUIET) && ToolsTold([]) == [] && Placed([], QUIET)
  {
  }

  lemma ToolsStep(events: seq<UpEvent>, u: Upstream, e: UpEvent, parse: string -> Option<Value>)
    requires u.tools == ToolsTold(events) && Placed(events, u) && Hear(u, e, parse).Some?
    ensures var v := Hear(u, e, parse).value;
            v.tools == ToolsTold(events + [e]) && Placed(events + [e], v)
  {
    PlacedStep(events, u, e, parse);
    hide Placed, ToolsTold, Feed, Closing;
    if e.UpBlockStart? && e.block.UpToolUse? {
      ToolStarted(events, u, e);
    } else if e.UpBlockDelta? && e.delta.UpInputJsonDelta? {
      InputArrives(events, u, e);
    } else {
      NoToolEvent(events, e);
    }
  }

  lemma PlacedStep(events: seq<UpEvent>, u: Upstream, e: UpEvent, parse: string -> Option<Value>)
    requires Placed(events, u) && Hear(u, e, parse).Some?
    ensures Placed(events + [e], Hear(u, e, parse).value)
  {
    hide ToolStarts, Joined, Feed, Closing;
    Snoc(events, e, 0);
    forall i: nat { Snoc(events, e, i); }
  }

  lemma NoToolEvent(events: seq<UpEvent>, e: UpEvent)
    requires !(e.UpBlockStart? && e.block.UpToolUse?) && !(e.UpBlockDelta? && e.delta.UpInputJsonDelta?)
    ensures ToolsTold(events + [e]) == ToolsTold(events)
  {
    hide ToolStarts, Joined;
    Snoc(events, e, 0);
    forall i: nat { Snoc(events, e, i); }
  }

  lemma ToolStarted(events: seq<UpEvent>, u: Upstream, e: UpEvent)
    requires Placed(events, u) && e.UpBlockStart? && e.block.UpToolUse? && e.index !in u.used
    ensures ToolsTold(events + [e]) == ToolsTold(events) + Starting(e.block)
  {
    forall i: nat { Snoc(events, e, i); }
    var starts, more := ToolStarts(events), ToolsTold(events + [e]);
    forall k | 0 <= k < |starts| ensures more[k] == ToolsTold(events)[k] {
      assert ToolStarts(events + [e])[k] == starts[k];
    }
  }

  lemma InputArrives(events: seq<UpEvent>, u: Upstream, e: UpEvent)
    requires Placed(events, u) && e.UpBlockDelta? && e.delta.UpInputJsonDelta?
    requires u.pending.PendingTool? && u.pending.index == e.index
    ensures ToolsTold(events + [e]) == Lengthened(ToolsTold(events), e.delta.partialJson)
  {
    hide Joined, ToolStarts;
    var starts, before, more := ToolStarts(events), ToolsTold(events), ToolsTold(events + [e]);
    var n := |starts| - 1;
    Snoc(events, e, e.index);
    assert |more| == |starts| == |before|;
    forall k | 0 <= k < n ensures more[k] == before[k] {
      Snoc(events, e, starts[k].index);
    }
    assert more[n] == before[n].(json := before[n].json + e.delta.partialJson);
    assert more == before[..n] + [more[n]];
  }

  // ---------------------------------------------------------------------------------------------
  // The reply and the client
  // ---------------------------------------------------------------------------------------------

  /** A tool in the reply, and the same tool as a client has it. */
  function Kept(t: ToolTold, parse: string -> Option<Value>): ContentBlock {
    ToolUse(t.id, t.name, InputOf(t.json, parse))
  }

  function Shown(t: ToolTold, parse: string -> Option<Value>): ContentBlock {
    ToolUse(t.id, t.name, if t.json != "" then GetOr(parse(t.json), EMPTY_OBJECT) else t.input)
  }

  function AllKept(tools: seq<ToolTold>, parse: string -> Option<Value>): (r: seq<ContentBlock>)
    ensures |r| == |tools|
  {
    seq(|tools|, k requires 0 <= k < |tools| => Kept(tools[k], parse))
  }

  function AllShown(tools: seq<ToolTold>, parse: string -> Option<Value>): (r: seq<ContentBlock>)
    ensures |r| == |tools|
  {
    seq(|tools|, k requires 0 <= k < |tools| => Shown(tools[k], parse))
  }

  /** The tools said so far are those told, without the one that is pending. */
  predicate ToolsClosed(u: Upstream, parse: string -> Option<Value>) {
    if u.pending.PendingTool? then
      && u.tools != []
      && var n := |u.tools| - 1;
         && u.tools[n].id == u.pending.id && u.tools[n].name == u.pending.name && u.tools[n].json == u.pending.json
         && ToolsSaid(u.said) == AllKept(u.tools[..n], parse)
    else ToolsSaid(u.said) == AllKept(u.tools, parse)
  }

  lemma {:induction false} ToolsAreSaid(events: seq<UpEvent>, parse: string -> Option<Value>)
    requires WellFormed(events, parse)
    ensures ToolsClosed(HearAll(QUIET, events, parse).value, parse)
  {
    hide Hear, HearAll, ToolsClosed;
    if events == [] {
      NothingSaid(parse);
    } else {
      var n := |events| - 1;
      assert events == events[..n] + [events[n]];
      HearAllSnoc(QUIET, events[..n], events[n], parse);
      ToolsAreSaid(events[..n], parse);
      SaidStep(HearAll(QUIET, events[..n], parse).value, events[n], parse);
    }
  }

  lemma NothingSaid(parse: string -> Option<Value>)
    ensures HearAll(QUIET, [], parse) == Some(QUIET) && ToolsClosed(QUIET, parse)
  {
  }

  lemma SaidStep(u: Upstream, e: UpEvent, parse: string -> Option<Value>)
    requires ToolsClosed(u, parse) && Hear(u, e, parse).Some?
    ensures ToolsClosed(Hear(u, e, parse).value, parse)
  {
    hide ToolsSaid, Feed, EndOfText, Glyphs;
    var v := Hear(u, e, parse).value;
    if e.UpBlockStart? {
      if e.block.UpToolUse? {
        assert v.tools[..|u.tools|] == u.tools;
      }
    } else if e.UpBlockDelta? {
      DeltaSays(u, e.index, e.delta, parse);
    } else if e.UpBlockStop? {
      StopSays(u, parse);
    }
  }

  lemma DeltaSays(u: Upstream, index: nat, d: UpDelta, parse: string -> Option<Value>)
    requires ToolsClosed(u, parse) && HearDelta(u, index, d).Some?
    ensures ToolsClosed(HearDelta(u, index, d).value, parse)
  {
    hide ToolsSaid, Feed, Glyphs;
    if d.UpTextDelta? {
      var syms := Feed(u.pending.buf + d.text, u.pending.inside).out;
      ToolsSaidJoin(u.said, Glyphs(syms));
      GlyphsSayNoTools(syms);
    } else if d.UpInputJsonDelta? {
      assert HearDelta(u, index, d).value.tools[..|u.tools| - 1] == u.tools[..|u.tools| - 1];
    }
  }

  lemma StopSays(u: Upstream, parse: string -> Option<Value>)
    requires ToolsClosed(u, parse) && !u.pending.Nothing?
    ensures ToolsClosed(u.(pending := Nothing, said := u.said + Closing(u.pending, parse)), parse)
  {
    hide ToolsSaid, EndOfText, Glyphs;
    ToolsSaidJoin(u.said, Closing(u.pending, parse));
    match u.pending {
      case PendingText(_, buf, inside) => GlyphsSayNoTools(EndOfText(buf, inside).out);
      case PendingTool(_, id, name, json) =>
        OneSaid(ToolUse(id, name, InputOf(json, parse)));
        assert AllKept(u.tools, parse)
               == AllKept(u.tools[..|u.tools| - 1], parse) + [Kept(u.tools[|u.tools| - 1], parse)];
      case PendingThinking(_, t, s) => OneSaid(Thinking(t, s));
      case PendingImage(_) => NoneSaid();
    }
  }

  lemma OneSaid(b: ContentBlock)
    ensures ToolsSaid([Whole(b)]) == if b.ToolUse? then [b] else []
  {
    assert [Whole(b)][..0] == [];
  }

  lemma NoneSaid()
    ensures ToolsSaid([]) == []
  {
  }

  lemma {:induction false} ClientTools(slots: seq<Slot>, parse: string -> Option<Value>)
    ensures ToolUses(AssembledAll(slots, parse)) == AllShown(ToolSlots(slots), parse)
  {
    if slots != [] {
      var n := |slots| - 1;
      ClientTools(slots[..n], parse);
      assert AssembledAll(slots, parse) == AssembledAll(slots[..n], parse) + [Assembled(slots[n], parse)];
      ToolUsesSnoc(AssembledAll(slots[..n], parse), Assembled(slots[n], parse));
    }
  }

  /** What falls back to the upstream slots when no tool was told holds no tool. */
  lemma {:induction false} NoToolTold(events: seq<UpEvent>, i: nat)
    requires ToolStarts(events) == []
    ensures Told(events, i).Some? ==> !Told(events, i).value.ToolState?
  {
    if events != [] {
      NoToolTold(events[..|events| - 1], i);
    }
  }

  lemma {:induction false} NoToolFallsBack(blocks: seq<BlockState>, parse: string -> Option<Value>)
    requires forall b <- blocks :: !b.ToolState?
    ensures Fallback(blocks, parse).Ok? && NoToolUse(Fallback(blocks, parse).value)
  {
    if blocks != [] {
      assert blocks[0] in blocks;
      NoToolFallsBack(blocks[1..], parse);
    }
  }

  predicate NoToolUse(blocks: seq<ContentBlock>) {
    forall b <- blocks :: !b.ToolUse?
  }

  lemma {:induction false} NoneUsed(blocks: seq<ContentBlock>)
    requires NoToolUse(blocks)
    ensures ToolUses(blocks) == []
  {
    if blocks != [] {
      NoneUsed(blocks[..|blocks| - 1]);
    }
  }

  /** Client and reply have the same tools exactly when no input is given at a start alone. */
  lemma InputsAgree(events: seq<UpEvent>, slots: seq<Slot>, parse: string -> Option<Value>)
    requires WellFormed(events, parse)
    requires var u := HearAll(QUIET, events, parse).value; u.pending.Nothing? && ToolSlots(slots) == u.tools
    ensures var u := HearAll(QUIET, events, parse).value;
            ToolUses(AssembledAll(slots, parse)) == ToolUses(Assemble(u.said)) <==> InputsKept(events)
  {
    hide HearAll, ToolUses, ToolsSaid, ToolSlots, ToolStarts, Joined, Assemble;
    var u := HearAll(QUIET, events, parse).value;
    ToolsAreTold(events, parse);
    ToolsAreSaid(events, parse);
    AssembledTools(u.said);
    ClientTools(slots, parse);
    var shown, kept, starts := AllShown(u.tools, parse), AllKept(u.tools, parse), ToolStarts(events);
    forall k | 0 <= k < |starts|
      ensures shown[k] == kept[k]
         <==> Joined(events, starts[k].index) != "" || GetOr(starts[k].block.input, EMPTY_OBJECT) == EMPTY_OBJECT
    {
      assert u.tools[k] == ToolOf(events, starts[k]);
    }
    if InputsKept(events) {
      assert forall k :: 0 <= k < |starts| ==> starts[k] in starts;
      assert shown == kept;
    } else {
      var e :| e in starts && !(Joined(events, e.index) != "" || GetOr(e.block.input, EMPTY_OBJECT) == EMPTY_OBJECT);
      var k :| 0 <= k < |starts| && starts[k] == e;
      assert shown[k] != kept[k];
    }
  }

  /** The tools of the reply are those said, in the fallback too. */
  lemma ReplyTools(events: seq<UpEvent>, parse: string -> Option<Value>)
    requires WellFormed(events, parse) && HearAll(QUIET, events, parse).value.pending.Nothing?
    ensures var u := HearAll(QUIET, events, parse).value;
            && Reply(events, u.said, parse).Ok?
            && ToolUses(Reply(events, u.said, parse).value) == ToolUses(Assemble(u.said))
  {
    hide HearAll, ToolsSaid, Joined, Assemble, Fallback, AllTold, ToolStarts, ToolUses, Told;
    var u := HearAll(QUIET, events, parse).value;
    if Assemble(u.said) == [] {
      ToolsAreTold(events, parse);
      ToolsAreSaid(events, parse);
      AssembledTools(u.said);
      NoneUsed([]);
      assert |ToolStarts(events)| == |u.tools| == |AllKept(u.tools, parse)| == 0;
      forall b <- AllTold(events) ensures !b.ToolState? {
        var i :| 0 <= i < |AllTold(events)| && AllTold(events)[i] == b;
        NoToolTold(events, i);
      }
      NoToolFallsBack(AllTold(events), parse);
      NoneUsed(Fallback(AllTold(events), parse).value);
    }
  }

  /** A whole stream that leaves no block open: a client has the tools of the reply exactly when every tool was
      started with no input or an empty one, or the deltas for its input join to something. */
  method ToolInputs(parse: string -> Option<Value>, upstream: seq<UpEvent>)
    returns (events: seq<StreamEvent>, result: Result<CompleteResponse, ProviderError>)
    requires WellFormed(upstream, parse) && LastStart(upstream).Some?
    requires HearAll(QUIET, upstream, parse).value.pending.Nothing?
    ensures var w := Replay(true, START, events);
            && w.Some? && result.Ok?
            && ToolUses(AssembledAll(w.value.slots, parse)) == AllShown(ToolsTold(upstream), parse)
            && ToolUses(result.value.content) == AllKept(ToolsTold(upstream), parse)
            && (ToolUses(AssembledAll(w.value.slots, parse)) == ToolUses(result.value.content)
                <==> InputsKept(upstream))
  {
    hide Replay, HearAll, ToolUses, Assemble, ToolSlots, ToolsSaid, ToolsTold, InputsKept, Reply, Normalized;
    events, result := ConsumeSse(parse, upstream);
    ghost var u := HearAll(QUIET, upstream, parse).value;
    ghost var slots := Replay(true, START, events).value.slots;
    ReplyTools(upstream, parse);
    InputsAgree(upstream, slots, parse);
    ToolsAreTold(upstream, parse);
    ToolsAreSaid(upstream, parse);
    AssembledTools(u.said);
    ClientTools(slots, parse);
  }

  // A run on which they differ: the input comes with the start, and the one delta is empty.

  const GIVEN := Obj([Entry("a", Null)])

  function EmptyDelta(): seq<UpEvent> {
    [UpMessageStart("m1", "model", 5, None, None), UpBlockStart(0, UpToolUse("t1", "grep", Some(GIVEN))),
     UpBlockDelta(0, UpInputJsonDelta("")), UpBlockStop(0), UpMessageStop]
  }

  lemma EmptyDeltaHeard(parse: string -> Option<Value>)
    ensures WellFormed(EmptyDelta(), parse) && HearAll(QUIET, EmptyDelta(), parse).value.pending.Nothing?
  {
    hide HearAll;
    var events := EmptyDelta();
    forall k | 0 <= k < 5 ensures events[..k + 1] == events[..k] + [events[k]] {}
    assert events[..0] == [] && events[..5] == events;
    NoTools(parse);
    for k := 0 to 5
      invariant HearAll(QUIET, events[..k], parse).Some?
      invariant var u := HearAll(QUIET, events[..k], parse).value;
                && u.phase == (if k == 0 then Idle else if k < 5 then Streaming else Ended)
                && u.pending == (if k == 2 || k == 3 then PendingTool(0, "t1", "grep", "") else Nothing)
                && (k < 2 ==> u.used == {})
    {
      HearAllSnoc(QUIET, events[..k], events[k], parse);
    }
  }

  lemma EmptyDeltaTold()
    ensures var events := EmptyDelta();
            LastStart(events).Some? && !InputsKept(events) && ToolsTold(events) == [ToolTold("t1", "grep", GIVEN, "")]
  {
    hide ToolStarts, Joined, LastStart;
    var events := EmptyDelta();
    EmptyDeltaSteps();
    assert events[1] in ToolStarts(events) && GIVEN != EMPTY_OBJECT;
  }

  lemma EmptyDeltaSteps()
    ensures var events := EmptyDelta();
            LastStart(events).Some? && ToolStarts(events) == [events[1]] && Joined(events, 0) == ""
  {
    hide ToolStarts, Joined, LastStart;
    var events := EmptyDelta();
    NothingTold();
    forall k | 0 <= k < 5 ensures events[..k + 1] == events[..k] + [events[k]] {}
    assert events[..0] == [] && events[..5] == events;
    for k := 0 to 5
      invariant k > 0 ==> LastStart(events[..k]).Some?
      invariant ToolStarts(events[..k]) == (if k < 2 then [] else [events[1]]) && Joined(events[..k], 0) == ""
    {
      Snoc(events[..k], events[k], 0);
      StartStays(events[..k], events[k]);
    }
  }

  lemma NothingTold()
    ensures ToolStarts([]) == [] && Joined([], 0) == ""
  {
  }

  lemma StartStays(events: seq<UpEvent>, e: UpEvent)
    ensures e.UpMessageStart? || LastStart(events).Some? ==> LastStart(events + [e]).Some?
  {
    assert (events + [e])[..|events|] == events;
  }

  /** The client is sent an input, and the reply has none. */
  method InputLost(parse: string -> Option<Value>)
    returns (events: seq<StreamEvent>, result: Result<CompleteResponse, ProviderError>)
    ensures var w := Replay(true, START, events);
            && w.Some? && result.Ok?
            && ToolUses(AssembledAll(w.value.slots, parse)) == [ToolUse("t1", "grep", GIVEN)]
            && ToolUses(result.value.content) == [ToolUse("t1", "grep", EMPTY_OBJECT)]
  {
    hide Replay, HearAll, ToolUses, ToolsTold, InputsKept;
    EmptyDeltaHeard(parse);
    EmptyDeltaTold();
    events, result := ToolInputs(parse, EmptyDelta());
    assert AllShown(ToolsTold(EmptyDelta()), parse) == [ToolUse("t1", "grep", GIVEN)];
    assert AllKept(ToolsTold(EmptyDelta()), parse) == [ToolUse("t1", "grep", EMPTY_OBJECT)];
  }
}
