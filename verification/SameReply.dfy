/** One reply, four providers: a text-only reply is assembled into the same content whichever
    adapter receives it and however its text deltas are cut. */
module SameReply {
  import opened Base
  import opened Fence
  import opened Spp
  import Anthropic
  import AnthropicTexts
  import Gemini
  import Ollama
  import OpenAi

  /** The content of a text-only reply: the maximal runs of its line-by-line reference parse. */
  function Reply(text: string): seq<ContentBlock> {
    BlocksOf(Runs(LineParse(text, false).out))
  }

  /** What a run over fragments assembles, before cut safety is used. */
  function Streamed(frags: seq<string>): seq<ContentBlock> {
    BlocksOf(Runs(Run("", false, frags).out))
  }

  lemma StreamedIsReply(frags: seq<string>)
    requires CutSafe(Concat(frags), false)
    ensures Streamed(frags) == Reply(Concat(frags))
  {
    SafeTextAnyCut(frags);
  }

  // ---------------------------------------------------------------------------------------------
  // Ollama
  // ---------------------------------------------------------------------------------------------

  predicate OllamaTextOnly(chunks: seq<Ollama.ChatResponse>) {
    forall c <- chunks :: Ollama.ChunkTools(c) == []
  }

  function OllamaTexts(chunks: seq<Ollama.ChatResponse>): seq<string> {
    if chunks == [] then [] else [Ollama.ChunkText(chunks[0])] + OllamaTexts(chunks[1..])
  }

  lemma {:induction false} OllamaItems(buf: string, inside: bool, chunks: seq<Ollama.ChatResponse>)
    requires OllamaTextOnly(chunks)
    ensures Ollama.Items(buf, inside, chunks) == Glyphs(Run(buf, inside, OllamaTexts(chunks)).out)
    decreases |chunks|
  {
    hide Feed, EndOfText;
    if chunks != [] {
      var f := Feed(buf + Ollama.ChunkText(chunks[0]), inside);
      assert chunks[0] in chunks;
      OllamaItems(f.buf, f.inside, chunks[1..]);
      assert OllamaTexts(chunks)[1..] == OllamaTexts(chunks[1..]);
      GlyphsJoin(f.out, Run(f.buf, f.inside, OllamaTexts(chunks[1..])).out);
      assert Ollama.ToolItems([]) == [];
    }
  }

  lemma OllamaContent(chunks: seq<Ollama.ChatResponse>)
    requires OllamaTextOnly(chunks)
    ensures Assemble(Ollama.Items("", false, chunks)) == Streamed(OllamaTexts(chunks))
  {
    OllamaItems("", false, chunks);
    AssembleRuns(Run("", false, OllamaTexts(chunks)).out);
  }

  // ---------------------------------------------------------------------------------------------
  // OpenAI
  // ---------------------------------------------------------------------------------------------

  predicate OpenAiTextOnly(chunks: seq<OpenAi.ChatCompletionChunk>) {
    forall c <- chunks :: OpenAi.ChunkCalls(c) == []
  }

  function OpenAiTexts(chunks: seq<OpenAi.ChatCompletionChunk>): seq<string> {
    if chunks == [] then [] else [OpenAi.ChunkText(chunks[0])] + OpenAiTexts(chunks[1..])
  }

  lemma OpenAiSaidsJoin(a: seq<Sym>, b: seq<Sym>)
    ensures OpenAi.Saids(a + b) == OpenAi.Saids(a) + OpenAi.Deltas([]) + OpenAi.Saids(b)
  {
  }

  lemma {:induction false} OpenAiHeard(buf: string, inside: bool, chunks: seq<OpenAi.ChatCompletionChunk>)
    requires OpenAiTextOnly(chunks)
    ensures OpenAi.HeardFrom(buf, inside, chunks) == OpenAi.Saids(Run(buf, inside, OpenAiTexts(chunks)).out)
    decreases |chunks|
  {
    hide Feed, EndOfText;
    if chunks != [] {
      var f := Feed(buf + OpenAi.ChunkText(chunks[0]), inside);
      assert chunks[0] in chunks;
      OpenAiHeard(f.buf, f.inside, chunks[1..]);
      assert OpenAiTexts(chunks)[1..] == OpenAiTexts(chunks[1..]);
      hide OpenAi.Saids, OpenAi.ChunkCalls, OpenAi.ChunkText;
      OpenAiSaidsJoin(f.out, Run(f.buf, f.inside, OpenAiTexts(chunks[1..])).out);
    }
  }

  lemma {:induction false} OnlySaid(syms: seq<Sym>)
    ensures OpenAi.SaidOnly(OpenAi.Saids(syms)) == Glyphs(syms)
    ensures forall p <- OpenAi.HearAll([], OpenAi.Saids(syms)) :: p.Stream?
  {
    if syms != [] {
      var init, last := syms[..|syms| - 1], syms[|syms| - 1];
      OnlySaid(init);
      assert OpenAi.Saids(syms)[..|syms| - 1] == OpenAi.Saids(init);
    }
  }

  lemma {:induction false} StreamsOnly(parts: seq<OpenAi.Part>, parse: string -> Option<Value>)
    requires forall p <- parts :: p.Stream?
    ensures OpenAi.PartBlocks(parts, parse) == OpenAi.Streams(parts)
  {
    if parts != [] {
      assert parts[|parts| - 1] in parts;
      StreamsOnly(parts[..|parts| - 1], parse);
    }
  }

  lemma OpenAiContent(chunks: seq<OpenAi.ChatCompletionChunk>, parse: string -> Option<Value>)
    requires OpenAiTextOnly(chunks)
    ensures OpenAi.Content(chunks, parse) == Streamed(OpenAiTexts(chunks))
  {
    var syms := Run("", false, OpenAiTexts(chunks)).out;
    OpenAiHeard("", false, chunks);
    OnlySaid(syms);
    OpenAi.CallsDoNotDisturbText(OpenAi.Saids(syms));
    StreamsOnly(OpenAi.HearAll([], OpenAi.Saids(syms)), parse);
    AssembleRuns(syms);
  }

  // ---------------------------------------------------------------------------------------------
  // Gemini
  // ---------------------------------------------------------------------------------------------

  predicate GeminiTextOnly(chunks: seq<Gemini.Response>) {
    forall p <- Gemini.AllParts(chunks) :: Gemini.IsPlainText(p)
  }

  function GeminiTexts(parts: seq<Gemini.Part>): seq<string> {
    if parts == [] then [] else [GetOr(parts[0].text, "")] + GeminiTexts(parts[1..])
  }

  lemma SaidsJoin(a: seq<Sym>, b: seq<Sym>)
    ensures Gemini.Saids(a + b) == Gemini.Saids(a) + Gemini.Saids(b)
  {
  }

  lemma {:induction false} GeminiHeard(buf: string, inside: bool, parts: seq<Gemini.Part>)
    requires forall p <- parts :: Gemini.IsPlainText(p)
    ensures Gemini.HeardFrom(buf, inside, parts) == Gemini.Saids(Run(buf, inside, GeminiTexts(parts)).out)
    decreases |parts|
  {
    hide Feed, EndOfText, Gemini.Saids;
    if parts != [] {
      assert parts[0] in parts;
      var f := Gemini.FenceAfter(buf, inside, parts[0]);
      GeminiHeard(f.buf, f.inside, parts[1..]);
      assert GeminiTexts(parts)[1..] == GeminiTexts(parts[1..]);
      SaidsJoin(f.out, Run(f.buf, f.inside, GeminiTexts(parts[1..])).out);
    }
  }

  lemma {:induction false} GeminiAssemble(syms: seq<Sym>)
    ensures var r := Gemini.HearAll(Gemini.SILENCE, Gemini.Saids(syms));
            Gemini.Finished(r) == Assemble(Glyphs(syms)) && (r.open.None? ==> r.done == [])
  {
    if syms != [] {
      var init, last := syms[..|syms| - 1], syms[|syms| - 1];
      GeminiAssemble(init);
      assert Gemini.Saids(syms)[..|syms| - 1] == Gemini.Saids(init);
      assert Glyphs(syms)[..|syms| - 1] == Glyphs(init);
      GeminiText(Gemini.HearAll(Gemini.SILENCE, Gemini.Saids(init)), last.html, [last.c]);
    }
  }

  lemma GeminiText(r: Gemini.Reply, html: bool, s: string)
    requires r.open.None? ==> r.done == []
    ensures Gemini.Finished(Gemini.HearText(r, html, s)) == AddText(Gemini.Finished(r), html, s)
  {
    if r.open.Some? {
      assert Gemini.Finished(r)[..|r.done|] == r.done;
    }
  }

  lemma GeminiContent(chunks: seq<Gemini.Response>)
    requires GeminiTextOnly(chunks)
    ensures Gemini.Content(chunks) == Streamed(GeminiTexts(Gemini.AllParts(chunks)))
  {
    var syms := Run("", false, GeminiTexts(Gemini.AllParts(chunks))).out;
    GeminiHeard("", false, Gemini.AllParts(chunks));
    GeminiAssemble(syms);
    AssembleRuns(syms);
  }

  // ---------------------------------------------------------------------------------------------
  // Anthropic
  // ---------------------------------------------------------------------------------------------

  /** A complete message with one text block, in whatever deltas and among whatever other events. */
  predicate AnthropicTextOnly(events: seq<Anthropic.UpEvent>, parse: string -> Option<Value>) {
    AnthropicTexts.OneText(events, parse)
  }

  function AnthropicDeltas(events: seq<Anthropic.UpEvent>): seq<string>
    requires |AnthropicTexts.TextBlocks(events)| == 1
  {
    AnthropicTexts.TextBlocks(events)[0]
  }

  /** What is said is the fence output of the deltas, and when that is nothing the reply is the raw text. */
  lemma AnthropicContent(events: seq<Anthropic.UpEvent>, parse: string -> Option<Value>)
    requires AnthropicTextOnly(events, parse)
    ensures var u, said := Anthropic.HearAll(Anthropic.QUIET, events, parse).value, Streamed(AnthropicDeltas(events));
            && Anthropic.LastStart(events).Some? && Assemble(u.said) == said
            && Anthropic.Reply(events, u.said, parse)
              == Ok(if said != [] then said else AnthropicTexts.RawContent(events))
  {
    hide Anthropic.HearAll, Run, Assemble, Anthropic.Reply, AnthropicTexts.RawContent, AnthropicTexts.TextBlocks;
    AnthropicTexts.OneTextReply(events, parse);
  }

  // ---------------------------------------------------------------------------------------------
  // The theorem
  // ---------------------------------------------------------------------------------------------

  /** Run one text-only reply through all four adapters, each with its own cut.  The three adapters
      that keep nothing but what the fence parser emits agree with the reference; Anthropic agrees
      exactly when the reference is not empty, and otherwise falls back to the raw text. */
  method Everywhere(text: string, parse: string -> Option<Value>, ollama: seq<Ollama.ChatResponse>,
                    openAi: seq<OpenAi.ChatCompletionChunk>, gemini: seq<Gemini.Response>,
                    anthropic: seq<Anthropic.UpEvent>)
    returns (a: seq<ContentBlock>, g: seq<ContentBlock>, l: seq<ContentBlock>, o: seq<ContentBlock>)
    requires CutSafe(text, false)
    requires ollama != [] && OllamaTextOnly(ollama) && Concat(OllamaTexts(ollama)) == text
    requires openAi != [] && OpenAiTextOnly(openAi) && Concat(OpenAiTexts(openAi)) == text
    requires gemini != [] && GeminiTextOnly(gemini) && Concat(GeminiTexts(Gemini.AllParts(gemini))) == text
    requires AnthropicTextOnly(anthropic, parse) && Concat(AnthropicDeltas(anthropic)) == text
    ensures l == o == g == Reply(text)
    ensures a == if Reply(text) != [] then Reply(text) else AnthropicTexts.RawContent(anthropic)
    ensures a == l <==> LineParse(text, false).out != []
  {
    hide *;
    l := FromOllama(text, ollama);
    o := FromOpenAi(text, parse, openAi);
    g := FromGemini(text, gemini);
    a := FromAnthropic(text, parse, anthropic);
    EmptyReply(text);
  }

  method FromOllama(text: string, chunks: seq<Ollama.ChatResponse>) returns (content: seq<ContentBlock>)
    requires CutSafe(text, false) && chunks != [] && OllamaTextOnly(chunks) && Concat(OllamaTexts(chunks)) == text
    ensures content == Reply(text)
  {
    hide CutSafe, Run, Replay, Assemble, Ollama.Items, BlocksOf, Runs, LineParse;
    var events, r := Ollama.ConsumeNdjson(chunks);
    OllamaContent(chunks);
    StreamedIsReply(OllamaTexts(chunks));
    content := r.value.content;
  }

  method FromOpenAi(text: string, parse: string -> Option<Value>, chunks: seq<OpenAi.ChatCompletionChunk>)
    returns (content: seq<ContentBlock>)
    requires CutSafe(text, false) && chunks != [] && OpenAiTextOnly(chunks) && Concat(OpenAiTexts(chunks)) == text
    ensures content == Reply(text)
  {
    hide CutSafe, Run, Replay, OpenAi.Content, BlocksOf, Runs, LineParse;
    var events, r := OpenAi.ConsumeSse(parse, chunks);
    OpenAiContent(chunks, parse);
    StreamedIsReply(OpenAiTexts(chunks));
    content := r.value.content;
  }

  method FromGemini(text: string, chunks: seq<Gemini.Response>) returns (content: seq<ContentBlock>)
    requires CutSafe(text, false) && chunks != [] && GeminiTextOnly(chunks)
    requires Concat(GeminiTexts(Gemini.AllParts(chunks))) == text
    ensures content == Reply(text)
  {
    hide CutSafe, Run, Replay, Gemini.Content, BlocksOf, Runs, LineParse;
    var events, r := Gemini.ConsumeSse(chunks);
    GeminiContent(chunks);
    StreamedIsReply(GeminiTexts(Gemini.AllParts(chunks)));
    content := r.value.content;
  }

  method FromAnthropic(text: string, parse: string -> Option<Value>, upstream: seq<Anthropic.UpEvent>)
    returns (content: seq<ContentBlock>)
    requires CutSafe(text, false) && AnthropicTextOnly(upstream, parse) && Concat(AnthropicDeltas(upstream)) == text
    ensures content == if Reply(text) != [] then Reply(text) else AnthropicTexts.RawContent(upstream)
    ensures content != []
  {
    hide Anthropic.Reply, AnthropicTexts.TextBlocks, Reply, Streamed;
    hide CutSafe, Replay, Assemble, Anthropic.HearAll, AnthropicTexts.BlankBlocks;
    AnthropicContent(upstream, parse);
    StreamedIsReply(AnthropicDeltas(upstream));
    var events, r := Anthropic.ConsumeSse(parse, upstream);
    content := r.value.content;
  }

  lemma EmptyReply(text: string)
    ensures Reply(text) == [] <==> LineParse(text, false).out == []
  {
    hide LineParse;
    RunsFlat(LineParse(text, false).out);
  }
}
