/** What arrives of a reply, told from its chunks alone: every character the fence lets through, every tool call
    with its own name and arguments, and in which order
    (crates/provider-local/src/stream.rs, crates/provider-openai/src/stream.rs). */
module Arrivals {
  import opened Base
  import opened Fence
  import opened Spp
  import Ollama
  import OllamaIds
  import OpenAi
  import OpenAiCalls
  import SameReply

  // ---------------------------------------------------------------------------------------------
  // Letters
  // ---------------------------------------------------------------------------------------------

  function LettersOf(b: ContentBlock): seq<Sym> {
    match b
    case TextBlock(t) => Tag(false, t)
    case HtmlBlock(t) => Tag(true, t)
    case _ => []
  }

  /** The characters of all text and html blocks, in order. */
  function Letters(blocks: seq<ContentBlock>): seq<Sym> {
    if blocks == [] then [] else Letters(blocks[..|blocks| - 1]) + LettersOf(blocks[|blocks| - 1])
  }

  lemma LettersSnoc(blocks: seq<ContentBlock>, b: ContentBlock)
    ensures Letters(blocks + [b]) == Letters(blocks) + LettersOf(b)
  {
    assert (blocks + [b])[..|blocks|] == blocks;
  }

  lemma LettersOfText(blocks: seq<ContentBlock>, html: bool, s: string)
    ensures Letters(AddText(blocks, html, s)) == Letters(blocks) + Tag(html, s)
  {
    hide Letters;
    if blocks != [] && IsStreamBlock(blocks[|blocks| - 1], html) {
      var init, last := blocks[..|blocks| - 1], blocks[|blocks| - 1];
      assert blocks == init + [last];
      LettersSnoc(init, last);
      LettersSnoc(init, StreamBlock(html, StreamText(last) + s));
      TagConcat(html, StreamText(last), s);
    } else {
      LettersSnoc(blocks, StreamBlock(html, s));
    }
  }

  /** The characters among what was said. */
  function Spelled(items: seq<Item>): seq<Sym> {
    if items == [] then [] else Spelled(items[..|items| - 1]) + SpelledOf(items[|items| - 1])
  }

  function SpelledOf(item: Item): seq<Sym> {
    if item.Glyph? then [item.sym] else LettersOf(item.block)
  }

  lemma {:induction false} AssembledLetters(items: seq<Item>)
    ensures Letters(Assemble(items)) == Spelled(items)
  {
    if items != [] {
      var init, last := items[..|items| - 1], items[|items| - 1];
      AssembledLetters(init);
      match last {
        case Glyph(sym) =>
          LettersOfText(Assemble(init), sym.html, [sym.c]);
          assert Tag(sym.html, [sym.c]) == [sym];
        case Whole(b) => LettersSnoc(Assemble(init), b);
      }
    }
  }

  lemma {:induction false} SpelledJoin(a: seq<Item>, b: seq<Item>)
    ensures Spelled(a + b) == Spelled(a) + Spelled(b)
    decreases |b|
  {
    hide SpelledOf;
    if b == [] {
      assert a + b == a;
    } else {
      var n := |b| - 1;
      assert (a + b)[..|a| + n] == a + b[..n] && (a + b)[|a| + n] == b[n];
      SpelledJoin(a, b[..n]);
      assert Spelled(a) + Spelled(b[..n]) + SpelledOf(b[n]) == Spelled(a) + (Spelled(b[..n]) + SpelledOf(b[n]));
    }
  }

  lemma {:induction false} SpelledGlyphs(syms: seq<Sym>)
    ensures Spelled(Glyphs(syms)) == syms
  {
    if syms != [] {
      var n := |syms| - 1;
      assert Glyphs(syms)[..n] == Glyphs(syms[..n]);
      SpelledGlyphs(syms[..n]);
    }
  }

  // ---------------------------------------------------------------------------------------------
  // Text that is not held back
  // ---------------------------------------------------------------------------------------------

  /** Text without a backtick that does not end in white space. */
  predicate Flowing(text: string) {
    '`' !in text && (text == "" || !IsWhitespace(text[|text| - 1]))
  }

  /** It passes the fence parser whole and at once. */
  lemma {:induction false} FlowsThrough(text: string)
    requires Flowing(text)
    ensures Feed(text, false) == Fed(Tag(false, text), "", false)
    decreases |text|
  {
    if '\n' in text {
      var n := LineEnd(text);
      var line, rest := text[..n], text[n..];
      NewlineIsWhite();
      FlowingRest(text, n);
      hide IsMarker, IsWhitespace, Held;
      MarkerHasBacktick(line, false);
      FlowsThrough(rest);
      TagConcat(false, line, rest);
      assert text == line + rest;
    } else if Held(text, false) {
      HeldEnds(text);
      BlanksAreWhite();
    }
  }

  lemma NewlineIsWhite()
    ensures IsWhitespace('\n')
  {
  }

  lemma FlowingRest(text: string, n: nat)
    requires Flowing(text) && n < |text|
    ensures Flowing(text[n..]) && '`' !in text[..n]
  {
    hide IsWhitespace;
  }

  lemma BlanksAreWhite()
    ensures IsWhitespace(' ') && IsWhitespace('\t')
  {
  }

  lemma MarkerHasBacktick(line: string, inside: bool)
    ensures IsMarker(line, inside) ==> '`' in line
  {
    MarkerLines(line, inside);
    hide IsMarker;
    if blanks, ends :| Framed(line, blanks, inside, ends) {
      assert line[|blanks|] == '`';
    }
  }

  lemma HeldEnds(text: string)
    requires Held(text, false)
    ensures text == "" || '`' in text || text[|text| - 1] in {' ', '\t'}
  {
    var n := LeadingBlanks(text);
    BlanksInFront(text);
    if n < |text| {
      assert text[n..][0] == Marker(false)[0] == '`';
      assert text[n] in text;
    }
  }

  lemma {:induction false} BlanksInFront(s: string)
    ensures forall k | 0 <= k < LeadingBlanks(s) :: s[k] in {' ', '\t'}
  {
    if s != "" && s[0] in {' ', '\t'} {
      BlanksInFront(s[1..]);
      assert forall k | 0 < k < LeadingBlanks(s) :: s[k] == s[1..][k - 1];
    }
  }

  // ---------------------------------------------------------------------------------------------
  // Ollama
  // ---------------------------------------------------------------------------------------------

  function OllamaText(c: Ollama.ChatResponse): string {
    match c.message
    case Some(Message(Some(t), _)) => t
    case _ => ""
  }

  function OllamaTexts(chunks: seq<Ollama.ChatResponse>): seq<string> {
    if chunks == [] then [] else [OllamaText(chunks[0])] + OllamaTexts(chunks[1..])
  }

  lemma {:induction false} ToolsSpellNothing(tools: seq<Ollama.ToolCall>)
    ensures Spelled(Ollama.ToolItems(tools)) == []
  {
    if tools != [] {
      var n := |tools| - 1;
      assert Ollama.ToolItems(tools)[..n] == Ollama.ToolItems(tools[..n]);
      ToolsSpellNothing(tools[..n]);
    }
  }

  lemma {:induction false} OllamaSpells(buf: string, inside: bool, chunks: seq<Ollama.ChatResponse>)
    ensures Spelled(Ollama.Items(buf, inside, chunks)) == Run(buf, inside, OllamaTexts(chunks)).out
    decreases |chunks|
  {
    hide Feed, EndOfText, Glyphs, Spelled, Ollama.ToolItems;
    if chunks == [] {
      SpelledGlyphs(EndOfText(buf, inside).out);
    } else {
      var f := Feed(buf + OllamaText(chunks[0]), inside);
      var text, tools := Glyphs(f.out), Ollama.ToolItems(Ollama.ChunkTools(chunks[0]));
      assert OllamaTexts(chunks)[1..] == OllamaTexts(chunks[1..]);
      SpelledGlyphs(f.out);
      ToolsSpellNothing(Ollama.ChunkTools(chunks[0]));
      OllamaSpells(f.buf, f.inside, chunks[1..]);
      SpelledJoin(text, tools);
      SpelledJoin(text + tools, Ollama.Items(f.buf, f.inside, chunks[1..]));
    }
  }

  /** Whatever calls come in between, the text of a reply is what one fence parser makes of all its text. */
  lemma OllamaTextArrives(chunks: seq<Ollama.ChatResponse>)
    requires chunks != []
    ensures Letters(Ollama.Reply(chunks).content) == Run("", false, OllamaTexts(chunks)).out
  {
    AssembledLetters(Ollama.Items("", false, chunks));
    OllamaSpells("", false, chunks);
  }

  /** What the chunks say when no text is held back: of each its text, then its calls. */
  function OllamaSpoken(chunks: seq<Ollama.ChatResponse>): seq<Item> {
    if chunks == [] then []
    else
      Glyphs(Tag(false, OllamaText(chunks[0]))) + Ollama.ToolItems(Ollama.ChunkTools(chunks[0]))
          + OllamaSpoken(chunks[1..])
  }

  /** Text and calls stand in the reply in the order in which they came. */
  lemma {:induction false} OllamaInOrder(chunks: seq<Ollama.ChatResponse>)
    requires forall c <- chunks :: Flowing(OllamaText(c))
    ensures Ollama.Items("", false, chunks) == OllamaSpoken(chunks)
    ensures chunks != [] ==> Ollama.Reply(chunks).content == Assemble(OllamaSpoken(chunks))
    decreases |chunks|
  {
    hide Feed, Glyphs, Tag, Flowing, Ollama.ToolItems;
    if chunks != [] {
      var t := OllamaText(chunks[0]);
      assert chunks[0] in chunks && "" + t == t;
      FlowsThrough(t);
      OllamaInOrder(chunks[1..]);
    } else {
      assert Glyphs([]) == [];
    }
  }

  // ---------------------------------------------------------------------------------------------
  // OpenAI
  // ---------------------------------------------------------------------------------------------

  function OpenAiText(c: OpenAi.ChatCompletionChunk): string {
    if c.choices == [] then ""
    else match c.choices[0].content
         case Some(t) => t
         case None => ""
  }

  function OpenAiTexts(chunks: seq<OpenAi.ChatCompletionChunk>): seq<string> {
    if chunks == [] then [] else [OpenAiText(chunks[0])] + OpenAiTexts(chunks[1..])
  }

  /** The tool deltas of the first choice of every chunk. */
  function RawDeltas(chunks: seq<OpenAi.ChatCompletionChunk>): seq<OpenAi.DeltaToolCall> {
    if chunks == [] then []
    else (if chunks[0].choices == [] then [] else chunks[0].choices[0].toolCalls) + RawDeltas(chunks[1..])
  }

  /** The deltas among what was heard. */
  function DeltasIn(hs: seq<OpenAi.Heard>): seq<OpenAi.DeltaToolCall> {
    if hs == [] then []
    else
      var last := hs[|hs| - 1];
      DeltasIn(hs[..|hs| - 1]) + if last.Delta? then [last.call] else []
  }

  lemma {:induction false} HeardJoin(a: seq<OpenAi.Heard>, b: seq<OpenAi.Heard>)
    ensures DeltasIn(a + b) == DeltasIn(a) + DeltasIn(b)
    ensures OpenAi.SaidOnly(a + b) == OpenAi.SaidOnly(a) + OpenAi.SaidOnly(b)
    decreases |b|
  {
    if b == [] {
      assert a + b == a;
    } else {
      var n := |b| - 1;
      assert (a + b)[..|a| + n] == a + b[..n];
      HeardJoin(a, b[..n]);
    }
  }

  lemma {:induction false} OnlyText(syms: seq<Sym>)
    ensures DeltasIn(OpenAi.Saids(syms)) == [] && OpenAi.SaidOnly(OpenAi.Saids(syms)) == Glyphs(syms)
  {
    if syms != [] {
      var n := |syms| - 1;
      assert OpenAi.Saids(syms)[..n] == OpenAi.Saids(syms[..n]);
      assert Glyphs(syms)[..n] == Glyphs(syms[..n]);
      OnlyText(syms[..n]);
    }
  }

  lemma {:induction false} OnlyDeltas(tcs: seq<OpenAi.DeltaToolCall>)
    ensures DeltasIn(OpenAi.Deltas(tcs)) == tcs && OpenAi.SaidOnly(OpenAi.Deltas(tcs)) == []
  {
    if tcs != [] {
      var n := |tcs| - 1;
      assert OpenAi.Deltas(tcs)[..n] == OpenAi.Deltas(tcs[..n]);
      OnlyDeltas(tcs[..n]);
    }
  }

  lemma {:induction false} HeardInRaw(buf: string, inside: bool, chunks: seq<OpenAi.ChatCompletionChunk>)
    ensures DeltasIn(OpenAi.HeardFrom(buf, inside, chunks)) == RawDeltas(chunks)
    ensures OpenAi.SaidOnly(OpenAi.HeardFrom(buf, inside, chunks)) == Glyphs(Run(buf, inside, OpenAiTexts(chunks)).out)
    decreases |chunks|
  {
    hide Feed, EndOfText, Glyphs, DeltasIn, OpenAi.Saids, OpenAi.Deltas, OpenAi.SaidOnly;
    if chunks == [] {
      OnlyText(EndOfText(buf, inside).out);
    } else {
      var f := Feed(buf + OpenAiText(chunks[0]), inside);
      assert OpenAiTexts(chunks)[1..] == OpenAiTexts(chunks[1..]);
      HeardInRaw(f.buf, f.inside, chunks[1..]);
      ChunkInRaw(f.out, OpenAi.ChunkCalls(chunks[0]), OpenAi.HeardFrom(f.buf, f.inside, chunks[1..]));
      GlyphsJoin(f.out, Run(f.buf, f.inside, OpenAiTexts(chunks[1..])).out);
    }
  }

  lemma ChunkInRaw(out: seq<Sym>, tcs: seq<OpenAi.DeltaToolCall>, rest: seq<OpenAi.Heard>)
    ensures var hs := OpenAi.Saids(out) + OpenAi.Deltas(tcs) + rest;
            DeltasIn(hs) == tcs + DeltasIn(rest) && OpenAi.SaidOnly(hs) == Glyphs(out) + OpenAi.SaidOnly(rest)
  {
    OnlyText(out);
    OnlyDeltas(tcs);
    hide *;
    HeardJoin(OpenAi.Saids(out), OpenAi.Deltas(tcs));
    HeardJoin(OpenAi.Saids(out) + OpenAi.Deltas(tcs), rest);
    assert Glyphs(out) + [] == Glyphs(out) && [] + tcs == tcs;
  }

  /** The text and html blocks among blocks. */
  function TextsAmong(blocks: seq<ContentBlock>): seq<ContentBlock> {
    if blocks == [] then []
    else
      var last := blocks[|blocks| - 1];
      TextsAmong(blocks[..|blocks| - 1]) + if last.TextBlock? || last.HtmlBlock? then [last] else []
  }

  lemma {:induction false} PartsInBlocks(parts: seq<OpenAi.Part>, parse: string -> Option<Value>)
    ensures TextsAmong(OpenAi.PartBlocks(parts, parse)) == OpenAi.Streams(parts)
    ensures var uses := ToolUses(OpenAi.PartBlocks(parts, parse));
            |uses| == |OpenAiCalls.Calls(parts)|
            && forall k | 0 <= k < |uses| :: uses[k] == OpenAi.PartBlock(OpenAiCalls.Calls(parts)[k], parse)
  {
    if parts != [] {
      var n := |parts| - 1;
      assert OpenAi.PartBlocks(parts, parse)[..n] == OpenAi.PartBlocks(parts[..n], parse);
      PartsInBlocks(parts[..n], parse);
    }
  }

  /** Whatever calls come in between, the text and html blocks of a reply are what one fence parser makes of all
      its text. */
  lemma OpenAiTextArrives(chunks: seq<OpenAi.ChatCompletionChunk>, parse: string -> Option<Value>)
    ensures TextsAmong(OpenAi.Content(chunks, parse)) == SameReply.Streamed(OpenAiTexts(chunks))
  {
    hide OpenAi.HearAll, OpenAi.HeardFrom, OpenAi.PartBlocks, TextsAmong, Assemble, Run;
    var hs := OpenAi.HeardFrom("", false, chunks);
    HeardInRaw("", false, chunks);
    PartsInBlocks(OpenAi.HearAll([], hs), parse);
    OpenAi.CallsDoNotDisturbText(hs);
    AssembleRuns(Run("", false, OpenAiTexts(chunks)).out);
  }

  /** The upstream indices in the order in which they first come up. */
  function Order(ds: seq<OpenAi.DeltaToolCall>): seq<nat> {
    if ds == [] then []
    else
      var before, i := Order(ds[..|ds| - 1]), ds[|ds| - 1].index;
      if i in before then before else before + [i]
  }

  /** The argument pieces with this index, joined. */
  function Pieces(ds: seq<OpenAi.DeltaToolCall>, i: nat): string {
    if ds == [] then ""
    else
      Pieces(ds[..|ds| - 1], i) +
      match ds[|ds| - 1]
      case DeltaToolCall(j, _, Some(DeltaFunction(_, Some(piece)))) => if i == j then piece else ""
      case _ => ""
  }

  /** The first delta with this index is the k-th. */
  predicate IsFirst(ds: seq<OpenAi.DeltaToolCall>, i: nat, k: int) {
    0 <= k < |ds| && ds[k].index == i && forall j | 0 <= j < k :: ds[j].index != i
  }

  lemma {:induction false} CallsInRaw(hs: seq<OpenAi.Heard>, i: nat)
    ensures OpenAiCalls.Seen(hs) == Order(DeltasIn(hs))
    ensures OpenAiCalls.Json(hs, i) == Pieces(DeltasIn(hs), i)
    ensures match OpenAiCalls.First(hs, i)
            case Some(d) => exists k :: IsFirst(DeltasIn(hs), i, k) && DeltasIn(hs)[k] == d
            case None => forall d <- DeltasIn(hs) :: d.index != i
  {
    if hs != [] {
      var n := |hs| - 1;
      CallsInRaw(hs[..n], i);
      if hs[n].Delta? {
        DeltaInRaw(hs[..n], hs[n].call, i);
        assert DeltasIn(hs) == DeltasIn(hs[..n]) + [hs[n].call];
      } else {
        assert DeltasIn(hs) == DeltasIn(hs[..n]);
      }
    }
  }

  lemma DeltaInRaw(before: seq<OpenAi.Heard>, d: OpenAi.DeltaToolCall, i: nat)
    requires match OpenAiCalls.First(before, i)
             case Some(f) => exists k :: IsFirst(DeltasIn(before), i, k) && DeltasIn(before)[k] == f
             case None => forall f <- DeltasIn(before) :: f.index != i
    ensures var ds := DeltasIn(before) + [d];
            && (match OpenAiCalls.First(before, i)
                case Some(f) => exists k :: IsFirst(ds, i, k) && ds[k] == f
                case None => if d.index == i then IsFirst(ds, i, |ds| - 1) else forall f <- ds :: f.index != i)
            && Pieces(ds, i) == Pieces(DeltasIn(before), i) + (if d.index == i then OpenAi.ArgsOf(d) else "")
            && Order(ds) == if d.index in Order(DeltasIn(before)) then Order(DeltasIn(before))
                            else Order(DeltasIn(before)) + [d.index]
  {
    hide OpenAiCalls.First, DeltasIn;
    var old_ := DeltasIn(before);
    var ds := old_ + [d];
    assert ds[..|old_|] == old_;
    if OpenAiCalls.First(before, i).Some? {
      var k :| IsFirst(old_, i, k) && old_[k] == OpenAiCalls.First(before, i).value;
      assert IsFirst(ds, i, k);
    }
  }

  /** One call for every upstream index, in the order in which the indices first come up.  Id and name are those
      of its first delta, the input is parsed from all its argument pieces joined; without any, or when they do
      not parse, it is the empty object. */
  lemma OpenAiCallsArrive(chunks: seq<OpenAi.ChatCompletionChunk>, parse: string -> Option<Value>, n: nat)
    requires n < |ToolUses(OpenAi.Content(chunks, parse))|
    ensures var ds, uses := RawDeltas(chunks), ToolUses(OpenAi.Content(chunks, parse));
            && |uses| == |Order(ds)|
            && (exists k :: IsFirst(ds, Order(ds)[n], k)
                            && Names(uses[n], ds[k])
                            && var json := Pieces(ds, Order(ds)[n]);
                               uses[n].input == if json != "" && parse(json).Some? then parse(json).value else Obj([]))
  {
    hide OpenAi.HearAll, OpenAi.HeardFrom, OpenAi.PartBlocks, ToolUses, DeltasIn, OpenAiCalls.Seen, OpenAiCalls.Calls;
    hide OpenAiCalls.First, OpenAiCalls.Json, OpenAiCalls.Unique, Order, Pieces, RawDeltas;
    var hs := OpenAi.HeardFrom("", false, chunks);
    HeardInRaw("", false, chunks);
    PartsInBlocks(OpenAi.HearAll([], hs), parse);
    OpenAiCalls.CallsInClosedForm(hs);
    CallsInRaw(hs, 0);
    var i := OpenAiCalls.Seen(hs)[n];
    CallsInRaw(hs, i);
    OpenAiCalls.SeenOnce(hs);
    var k :| IsFirst(DeltasIn(hs), i, k) && DeltasIn(hs)[k] == OpenAiCalls.First(hs, i).value;
    assert IsFirst(RawDeltas(chunks), i, k);
  }

  /** Id and name of a call are those of the delta, where it has them. */
  predicate Names(use: ContentBlock, d: OpenAi.DeltaToolCall)
    requires use.ToolUse?
  {
    && use.id == (match d.id case Some(id) => id case None => "")
    && use.name == match d
                   case DeltaToolCall(_, _, Some(DeltaFunction(Some(name), _))) => name
                   case _ => ""
  }

  /** What the chunks say when no text is held back: of each its text, then its deltas. */
  function OpenAiSpoken(chunks: seq<OpenAi.ChatCompletionChunk>): seq<OpenAi.Heard> {
    if chunks == [] then []
    else
      OpenAi.Saids(Tag(false, OpenAiText(chunks[0]))) + OpenAi.Deltas(OpenAi.ChunkCalls(chunks[0]))
      + OpenAiSpoken(chunks[1..])
  }

  /** Text and calls are heard in the order in which they came. */
  lemma {:induction false} OpenAiInOrder(chunks: seq<OpenAi.ChatCompletionChunk>, parse: string -> Option<Value>)
    requires forall c <- chunks :: Flowing(OpenAiText(c))
    ensures OpenAi.HeardFrom("", false, chunks) == OpenAiSpoken(chunks)
    ensures OpenAi.Content(chunks, parse) == OpenAi.PartBlocks(OpenAi.HearAll([], OpenAiSpoken(chunks)), parse)
    decreases |chunks|
  {
    hide Feed, OpenAi.Saids, OpenAi.Deltas, Tag, Flowing, OpenAi.ChunkCalls, OpenAi.PartBlocks;
    if chunks != [] {
      var t := OpenAiText(chunks[0]);
      assert chunks[0] in chunks && "" + t == t;
      FlowsThrough(t);
      OpenAiInOrder(chunks[1..], parse);
    } else {
      assert OpenAi.Saids([]) == [];
    }
  }
}
