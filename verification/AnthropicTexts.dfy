/** Text-only messages in the Anthropic adapter (crates/provider-anthropic/src/stream.rs): what they say, whatever else
    the stream holds. */
module AnthropicTexts {
  import opened Base
  import opened Fence
  import opened Spp
  import opened Anthropic
  import FenceExamples

  /** Every block is a text; message events, pings and errors may stand anywhere. */
  predicate TextsOnly(events: seq<UpEvent>) {
    forall e <- events :: e.UpBlockStart? ==> e.block.UpText?
  }

  /** The text deltas up to the next block. */
  function Deltas(events: seq<UpEvent>): seq<string> {
    if events == [] || events[0].UpBlockStart? then []
    else if events[0].UpBlockDelta? && events[0].delta.UpTextDelta? then [events[0].delta.text] + Deltas(events[1..])
    else Deltas(events[1..])
  }

  /** The deltas of each block, in the order of their starts. */
  function TextBlocks(events: seq<UpEvent>): seq<seq<string>> {
    if events == [] then []
    else (if events[0].UpBlockStart? then [Deltas(events[1..])] else []) + TextBlocks(events[1..])
  }

  /** The fence parser starts afresh with every block. */
  function EachRun(blocks: seq<seq<string>>): seq<Sym> {
    if blocks == [] then [] else Run("", false, blocks[0]).out + EachRun(blocks[1..])
  }

  function EachParsed(blocks: seq<seq<string>>): seq<Sym> {
    if blocks == [] then [] else LineParse(Concat(blocks[0]), false).out + EachParsed(blocks[1..])
  }

  lemma {:induction false} EachSafe(blocks: seq<seq<string>>)
    requires forall b <- blocks :: CutSafe(Concat(b), false)
    ensures EachRun(blocks) == EachParsed(blocks)
  {
    hide CutSafe, Run, LineParse;
    if blocks != [] {
      assert blocks[0] in blocks;
      SafeTextAnyCut(blocks[0]);
      EachSafe(blocks[1..]);
    }
  }

  // ---------------------------------------------------------------------------------------------
  // What is said
  // ---------------------------------------------------------------------------------------------

  /** What the rest of a stream adds: the rest of the open block, then the later blocks. */
  function Added(p: Pending, events: seq<UpEvent>): seq<Sym> {
    (if p.PendingText? then Run(p.buf, p.inside, Deltas(events)).out else []) + EachRun(TextBlocks(events))
  }

  lemma {:induction false} TextsSaid(u: Upstream, events: seq<UpEvent>, parse: string -> Option<Value>)
    requires TextsOnly(events) && (u.pending.Nothing? || u.pending.PendingText?)
    requires HearAll(u, events, parse).Some? && HearAll(u, events, parse).value.pending.Nothing?
    ensures HearAll(u, events, parse).value.said == u.said + Glyphs(Added(u.pending, events))
    ensures u.pending.Nothing? ==> Deltas(events) == []
    decreases |events|
  {
    hide Hear, HearAll, Run, EachRun, Glyphs;
    if events == [] {
      NothingAdded(u, parse);
    } else {
      HearFirst(u, events, parse);
      var v, rest := Hear(u, events[0], parse).value, events[1..];
      assert TextsOnly([events[0]]) by { assert events[0] in events; }
      OneSaid(u, events[0], rest, parse);
      TextsSaid(v, rest, parse);
      assert [events[0]] + rest == events;
      StepSaid(u, events[0], rest, parse);
    }
  }

  lemma NothingAdded(u: Upstream, parse: string -> Option<Value>)
    ensures HearAll(u, [], parse) == Some(u) && (u.pending.Nothing? ==> Glyphs(Added(u.pending, [])) == [])
  {
  }

  lemma OneSaid(u: Upstream, e: UpEvent, rest: seq<UpEvent>, parse: string -> Option<Value>)
    requires Hear(u, e, parse).Some? && TextsOnly([e]) && (u.pending.Nothing? || u.pending.PendingText?)
    ensures var p := Hear(u, e, parse).value.pending; p.Nothing? || p.PendingText?
  {
    assert [e][0] == e;
  }

  /** The symbols said by one event. */
  function SaidBy(p: Pending, e: UpEvent): seq<Sym> {
    if e.UpBlockDelta? && e.delta.UpTextDelta? && p.PendingText? then Feed(p.buf + e.delta.text, p.inside).out
    else if e.UpBlockStop? && p.PendingText? then EndOfText(p.buf, p.inside).out
    else []
  }

  lemma StepSaid(u: Upstream, e: UpEvent, rest: seq<UpEvent>, parse: string -> Option<Value>)
    requires Hear(u, e, parse).Some? && TextsOnly([e]) && (u.pending.Nothing? || u.pending.PendingText?)
    requires Hear(u, e, parse).value.pending.Nothing? ==> Deltas(rest) == []
    ensures var v := Hear(u, e, parse).value;
            v.said + Glyphs(Added(v.pending, rest)) == u.said + Glyphs(Added(u.pending, [e] + rest))
    ensures u.pending.Nothing? ==> Deltas([e] + rest) == []
  {
    hide Hear, Added, SaidBy, Deltas, TextsOnly;
    var v := Hear(u, e, parse).value;
    StepAdded(u, e, rest, parse);
    GlyphsJoin(SaidBy(u.pending, e), Added(v.pending, rest));
  }

  lemma StepAdded(u: Upstream, e: UpEvent, rest: seq<UpEvent>, parse: string -> Option<Value>)
    requires Hear(u, e, parse).Some? && TextsOnly([e]) && (u.pending.Nothing? || u.pending.PendingText?)
    requires Hear(u, e, parse).value.pending.Nothing? ==> Deltas(rest) == []
    ensures var v := Hear(u, e, parse).value;
            && v.said == u.said + Glyphs(SaidBy(u.pending, e))
            && SaidBy(u.pending, e) + Added(v.pending, rest) == Added(u.pending, [e] + rest)
    ensures u.pending.Nothing? ==> Deltas([e] + rest) == []
  {
    hide Feed, EndOfText, Run, EachRun;
    assert [e][0] == e && ([e] + rest)[1..] == rest;
    var ds, blocks := Deltas(rest), TextBlocks(rest);
    var p := Hear(u, e, parse).value.pending;
    if e.UpBlockStart? {
      EachRunFirst(ds, blocks);
      assert TextBlocks([e] + rest) == [ds] + blocks && p == PendingText(e.index, "", false);
      assert Added(p, rest) == Run("", false, ds).out + EachRun(blocks);
      assert Added(u.pending, [e] + rest) == [] + EachRun([ds] + blocks) == EachRun([ds] + blocks);
      assert [] + Added(p, rest) == Added(p, rest);
    } else if e.UpBlockDelta? {
      RunFirst(u.pending.buf, u.pending.inside, e.delta.text, ds);
      var f := Feed(u.pending.buf + e.delta.text, u.pending.inside);
      assert f.out + (Run(f.buf, f.inside, ds).out + EachRun(blocks))
             == (f.out + Run(f.buf, f.inside, ds).out) + EachRun(blocks);
      assert Deltas([e] + rest) == [e.delta.text] + ds && TextBlocks([e] + rest) == blocks;
      assert p == PendingText(e.index, f.buf, f.inside);
      assert SaidBy(u.pending, e) + Added(p, rest) == Added(u.pending, [e] + rest);
    } else if e.UpBlockStop? {
      RunNothing(u.pending.buf, u.pending.inside);
      assert Deltas([e] + rest) == [] && TextBlocks([e] + rest) == blocks;
      assert SaidBy(u.pending, e) + Added(p, rest) == Added(u.pending, [e] + rest);
    } else {
      assert Deltas([e] + rest) == ds && TextBlocks([e] + rest) == blocks;
      assert [] + Added(p, rest) == Added(u.pending, [e] + rest);
    }
    assert Glyphs([]) == [];
  }

  lemma EachRunFirst(b: seq<string>, blocks: seq<seq<string>>)
    ensures EachRun([b] + blocks) == Run("", false, b).out + EachRun(blocks)
  {
    hide Run;
    assert ([b] + blocks)[1..] == blocks;
  }

  lemma RunFirst(buf: string, inside: bool, text: string, frags: seq<string>)
    ensures var f := Feed(buf + text, inside);
            Run(buf, inside, [text] + frags).out == f.out + Run(f.buf, f.inside, frags).out
  {
    hide Feed;
    assert ([text] + frags)[1..] == frags;
  }

  lemma RunNothing(buf: string, inside: bool)
    ensures Run(buf, inside, []) == EndOfText(buf, inside)
  {
  }

  // ---------------------------------------------------------------------------------------------
  // What is kept of it upstream
  // ---------------------------------------------------------------------------------------------

  /** The first block start. */
  function FirstStart(events: seq<UpEvent>): (r: UpEvent)
    requires TextBlocks(events) != []
    ensures r.UpBlockStart? && r in events
  {
    if events[0].UpBlockStart? then events[0] else FirstStart(events[1..])
  }

  /** The raw text that a slot holds in the end: its initial text is kept, although it is never sent. */
  function RawOf(events: seq<UpEvent>): string
    requires TextsOnly(events) && TextBlocks(events) != []
  {
    FirstStart(events).block.text + Concat(TextBlocks(events)[0])
  }

  /** The raw texts when no more blocks start. */
  function RawAfter(u: Upstream, events: seq<UpEvent>): map<nat, string>
    requires u.pending.PendingText? ==> u.pending.index in u.raw
  {
    if u.pending.PendingText? then u.raw[u.pending.index := u.raw[u.pending.index] + Concat(Deltas(events))] else u.raw
  }

  lemma {:induction false} RawOpen(u: Upstream, events: seq<UpEvent>, parse: string -> Option<Value>)
    requires TextsOnly(events) && TextBlocks(events) == [] && HearAll(u, events, parse).Some?
    requires u.pending.Nothing? || (u.pending.PendingText? && u.pending.index in u.raw)
    ensures var v := HearAll(u, events, parse).value;
            v.used == u.used && v.raw == RawAfter(u, events)
    decreases |events|
  {
    hide Hear, HearAll;
    if events == [] {
      NothingAdded(u, parse);
      if u.pending.PendingText? {
        assert u.raw[u.pending.index] + "" == u.raw[u.pending.index];
        assert u.raw[u.pending.index := u.raw[u.pending.index]] == u.raw;
      }
    } else {
      HearFirst(u, events, parse);
      var v := Hear(u, events[0], parse).value;
      if v.pending.Nothing? {
        NoDeltas(v, events[1..], parse);
      }
      RawOpenStep(u, events, parse);
      RawOpen(v, events[1..], parse);
    }
  }

  /** Between blocks no delta arrives. */
  lemma {:induction false} NoDeltas(u: Upstream, events: seq<UpEvent>, parse: string -> Option<Value>)
    requires u.pending.Nothing? && HearAll(u, events, parse).Some?
    ensures Deltas(events) == []
    decreases |events|
  {
    hide Feed, EndOfText;
    if events != [] && !events[0].UpBlockStart? {
      NoDeltas(Hear(u, events[0], parse).value, events[1..], parse);
    }
  }

  lemma ConcatNothing()
    ensures Concat<char>([]) == ""
  {
  }

  lemma ConcatFirst(before: string, text: string, rest: seq<string>)
    ensures before + Concat([text] + rest) == (before + text) + Concat(rest)
  {
    assert ([text] + rest)[1..] == rest;
  }

  /** One event while no block starts. */
  lemma RawOpenStep(u: Upstream, events: seq<UpEvent>, parse: string -> Option<Value>)
    requires events != [] && TextBlocks(events) == [] && Hear(u, events[0], parse).Some?
    requires u.pending.Nothing? || (u.pending.PendingText? && u.pending.index in u.raw)
    requires Hear(u, events[0], parse).value.pending.Nothing? ==> Deltas(events[1..]) == []
    ensures var v, rest := Hear(u, events[0], parse).value, events[1..];
            && v.used == u.used && TextBlocks(rest) == []
            && (v.pending.Nothing? || (v.pending.PendingText? && v.pending.index in v.raw))
            && RawAfter(v, rest) == RawAfter(u, events)
  {
    hide Feed, EndOfText, Concat;
    var e, v, rest := events[0], Hear(u, events[0], parse).value, events[1..];
    assert !e.UpBlockStart?;
    if u.pending.PendingText? {
      var i := u.pending.index;
      if e.UpBlockDelta? {
        assert Deltas(events) == [e.delta.text] + Deltas(rest);
        ConcatFirst(u.raw[i], e.delta.text, Deltas(rest));
        assert v.raw == u.raw[i := u.raw[i] + e.delta.text];
      } else if e.UpBlockStop? {
        assert Deltas(events) == [] && u.raw[i] + "" == u.raw[i];
        ConcatNothing();
        assert u.raw[i := u.raw[i]] == u.raw;
      }
    }
  }

  /** A message of one text block has one raw text. */
  lemma {:induction false} RawOfOne(u: Upstream, events: seq<UpEvent>, parse: string -> Option<Value>)
    requires TextsOnly(events) && |TextBlocks(events)| == 1 && HearAll(u, events, parse).Some? && u.pending.Nothing?
    ensures var v, i := HearAll(u, events, parse).value, FirstStart(events).index;
            v.used == u.used + {i} && v.raw == u.raw[i := RawOf(events)] && !v.phase.Idle?
    decreases |events|
  {
    hide Hear, HearAll;
    HearFirst(u, events, parse);
    var e, v, rest := events[0], Hear(u, events[0], parse).value, events[1..];
    assert e in events;
    BetweenBlocks(u, e, parse);
    if e.UpBlockStart? {
      assert TextBlocks(events) == [Deltas(rest)] + TextBlocks(rest);
      RawOpen(v, rest, parse);
      StaysStarted(v, rest, parse);
      assert u.raw[e.index := e.block.text][e.index := RawOf(events)] == u.raw[e.index := RawOf(events)];
    } else {
      assert TextBlocks(events) == [] + TextBlocks(rest) == TextBlocks(rest);
      RawOfOne(v, rest, parse);
    }
  }

  lemma BetweenBlocks(u: Upstream, e: UpEvent, parse: string -> Option<Value>)
    requires Hear(u, e, parse).Some? && u.pending.Nothing? && (e.UpBlockStart? ==> e.block.UpText?)
    ensures var v := Hear(u, e, parse).value;
            if e.UpBlockStart?
            then v.pending == PendingText(e.index, "", false) && v.raw == u.raw[e.index := e.block.text]
                 && v.used == u.used + {e.index} && v.phase.Streaming?
            else v.pending.Nothing? && v.raw == u.raw && v.used == u.used
  {
  }

  lemma {:induction false} StaysStarted(u: Upstream, events: seq<UpEvent>, parse: string -> Option<Value>)
    requires HearAll(u, events, parse).Some? && !u.phase.Idle?
    ensures !HearAll(u, events, parse).value.phase.Idle?
    decreases |events|
  {
    hide Feed, EndOfText;
    if events != [] {
      StaysStarted(Hear(u, events[0], parse).value, events[1..], parse);
    }
  }

  // ---------------------------------------------------------------------------------------------
  // The fallback
  // ---------------------------------------------------------------------------------------------

  /** The upstream slots of a text-only stream hold its raw texts. */
  ghost predicate Holds(events: seq<UpEvent>, u: Upstream) {
    && (u.pending.Nothing? || (u.pending.PendingText? && u.pending.index in u.raw))
    && (forall i: nat :: Told(events, i) == if i in u.raw then Some(TextState(u.raw[i])) else None)
    && (forall i <- u.raw :: i < Width(events))
    && (Width(events) > 0 ==> Width(events) - 1 in u.raw)
  }

  lemma {:induction false} RawIsTold(events: seq<UpEvent>, parse: string -> Option<Value>)
    requires WellFormed(events, parse) && TextsOnly(events)
    ensures Holds(events, HearAll(QUIET, events, parse).value)
  {
    hide Hear, HearAll, Holds;
    if events == [] {
      NothingHeld(parse);
    } else {
      var n := |events| - 1;
      assert events == events[..n] + [events[n]];
      assert events[n] in events;
      HearAllSnoc(QUIET, events[..n], events[n], parse);
      RawIsTold(events[..n], parse);
      HoldsStep(events[..n], HearAll(QUIET, events[..n], parse).value, events[n], parse);
    }
  }

  lemma NothingHeld(parse: string -> Option<Value>)
    ensures HearAll(QUIET, [], parse) == Some(QUIET) && Holds([], QUIET)
  {
  }

  lemma HoldsStep(events: seq<UpEvent>, u: Upstream, e: UpEvent, parse: string -> Option<Value>)
    requires Holds(events, u) && Hear(u, e, parse).Some? && (e.UpBlockStart? ==> e.block.UpText?)
    ensures Holds(events + [e], Hear(u, e, parse).value)
  {
    hide Feed, EndOfText;
    assert (events + [e])[..|events|] == events;
  }

  function Blank(n: nat): seq<BlockState> {
    seq(n, _ => TextState(""))
  }

  function BlankBlocks(n: nat): seq<ContentBlock> {
    seq(n, _ => TextBlock(""))
  }

  lemma {:induction false} FallbackOfOne(n: nat, raw: string, parse: string -> Option<Value>)
    ensures Fallback(Blank(n) + [TextState(raw)], parse) == Ok(BlankBlocks(n) + [TextBlock(raw)])
  {
    var blocks := Blank(n) + [TextState(raw)];
    if n == 0 {
      assert blocks == [TextState(raw)] && blocks[1..] == [];
      assert Fallback([], parse) == Ok([]);
      assert [TextBlock(raw)] + [] == BlankBlocks(0) + [TextBlock(raw)];
    } else {
      assert blocks[1..] == Blank(n - 1) + [TextState(raw)];
      FallbackOfOne(n - 1, raw, parse);
      assert [TextBlock("")] + (BlankBlocks(n - 1) + [TextBlock(raw)]) == BlankBlocks(n) + [TextBlock(raw)];
    }
  }

  // ---------------------------------------------------------------------------------------------
  // One text block
  // ---------------------------------------------------------------------------------------------

  /** A complete message whose only block is a text. */
  predicate OneText(events: seq<UpEvent>, parse: string -> Option<Value>) {
    && TextsOnly(events) && |TextBlocks(events)| == 1
    && WellFormed(events, parse) && HearAll(QUIET, events, parse).value.pending.Nothing?
  }

  /** Its content when nothing was said: its raw text, behind an empty text for each index that was skipped. */
  function RawContent(events: seq<UpEvent>): seq<ContentBlock>
    requires TextsOnly(events) && TextBlocks(events) != []
  {
    BlankBlocks(FirstStart(events).index) + [TextBlock(RawOf(events))]
  }

  /** A text-only message, of any number of blocks, says what the fence parser makes of each. */
  lemma TextsContent(events: seq<UpEvent>, parse: string -> Option<Value>)
    requires TextsOnly(events) && WellFormed(events, parse) && HearAll(QUIET, events, parse).value.pending.Nothing?
    ensures Assemble(HearAll(QUIET, events, parse).value.said) == BlocksOf(Runs(EachRun(TextBlocks(events))))
  {
    hide HearAll, EachRun, Assemble, BlocksOf;
    TextsSaid(QUIET, events, parse);
    var syms := EachRun(TextBlocks(events));
    assert [] + syms == syms && [] + Glyphs(syms) == Glyphs(syms);
    AssembleRuns(syms);
  }

  /** With one block that is its fence output, and the fallback is its raw text. */
  lemma OneTextReply(events: seq<UpEvent>, parse: string -> Option<Value>)
    requires OneText(events, parse)
    ensures var u := HearAll(QUIET, events, parse).value;
            var said := BlocksOf(Runs(Run("", false, TextBlocks(events)[0]).out));
            && LastStart(events).Some? && Assemble(u.said) == said
            && Reply(events, u.said, parse) == Ok(if said != [] then said else RawContent(events))
  {
    hide HearAll, Run, Assemble, BlocksOf, Fallback, Told, Holds, TextBlocks, FirstStart;
    TextsContent(events, parse);
    Begun(events, parse);
    RawOfOne(QUIET, events, parse);
    RawIsTold(events, parse);
    OneRun(TextBlocks(events));
    OneSlot(events, HearAll(QUIET, events, parse).value);
    FallbackOfOne(FirstStart(events).index, RawOf(events), parse);
  }

  lemma OneRun(blocks: seq<seq<string>>)
    requires |blocks| == 1
    ensures EachRun(blocks) == Run("", false, blocks[0]).out
  {
    hide Run;
    assert blocks[1..] == [];
  }

  lemma OneSlot(events: seq<UpEvent>, u: Upstream)
    requires TextsOnly(events) && |TextBlocks(events)| == 1 && Holds(events, u)
    requires u.raw == map[FirstStart(events).index := RawOf(events)]
    ensures AllTold(events) == Blank(FirstStart(events).index) + [TextState(RawOf(events))]
  {
    hide Told, Width, TextBlocks, FirstStart;
    var i := FirstStart(events).index;
    assert i in u.raw && Width(events) == i + 1;
  }

  // ---------------------------------------------------------------------------------------------
  // Several text blocks
  // ---------------------------------------------------------------------------------------------

  /** The same text in two blocks is not the same message: an opener at the end of a block opens nothing in the
      next, whose newline is text. */
  lemma BlocksMatter()
    ensures CutSafe(OPENER, false) && CutSafe("\n", false)
    ensures EachRun([[OPENER], ["\n"]]) != LineParse(OPENER + "\n", false).out
  {
    hide Run, CutSafe, LineParse;
    OpenerAlone();
    NewlineAlone();
    OpenerLine();
    var blocks: seq<seq<string>>, second: seq<seq<string>> := [[OPENER], ["\n"]], [["\n"]];
    assert blocks[1..] == second && second[1..] == [];
    EachSafe(blocks);
    assert EachParsed(second) == LineParse("\n", false).out + EachParsed([]);
    assert EachParsed(blocks) == LineParse(OPENER, false).out + EachParsed(second);
  }

  lemma OpenerAlone()
    ensures CutSafe(OPENER, false) && Concat([OPENER]) == OPENER
  {
    hide CutSafe, Held, IsMarker;
    OpenerIsHeld();
    OpenerCloses();
    LoneMarker(OPENER, false);
    ConcatOne(OPENER);
  }

  lemma OpenerIsHeld()
    ensures OPENER != "" && '\n' !in OPENER && Body(OPENER) == OPENER && Held(OPENER, false)
  {
    assert OPENER[|OPENER| - 1] == 's' && OPENER[0] == '`';
    assert LeadingBlanks(OPENER) == 0 && OPENER[0..] == OPENER;
  }

  lemma OpenerCloses()
    ensures IsMarker(OPENER, false)
  {
    assert OPENER[|OPENER| - 1] == 's' && OPENER[0] == '`';
    assert TrimLineEnd(OPENER) == OPENER;
  }

  lemma ConcatOne(s: string)
    ensures Concat([s]) == s
  {
    assert [s][1..] == [] && s + "" == s;
  }

  lemma LoneMarker(line: string, inside: bool)
    requires line != "" && '\n' !in line && IsMarker(line, inside) && Held(Body(line), inside)
    ensures CutSafe(line, inside)
  {
    hide IsMarker, Held, Line;
    LastLine(line, inside);
    assert line[..|line|] == line && line[|line|..] == "";
  }

  lemma NewlineAlone()
    ensures CutSafe("\n", false) && Concat(["\n"]) == "\n" && LineParse("\n", false).out != []
  {
    assert LineEnd("\n") == 1 && "\n"[..1] == "\n" && "\n"[1..] == "";
    assert TrimLineEnd("\n") == "";
    assert !IsMarker("\n", false) && Body("\n") == "";
  }

  lemma OpenerLine()
    ensures LineParse(OPENER + "\n", false).out == []
  {
    var x := OPENER + "\n";
    assert '\n' !in OPENER && x[..|x| - 1] == OPENER;
    LineEndUnique(x, |x|);
    FenceExamples.OpenerIsMarker();
    assert x[..|x|] == x && x[|x|..] == "";
  }
}
