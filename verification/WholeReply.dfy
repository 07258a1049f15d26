/** From the bytes of a body to the final reply: decoder and accumulator together, for each provider.  The
    reply is described on the whole body, so no cut of the network can change it. */
module WholeReply {
  import opened Base
  import opened Fence
  import opened Spp
  import opened Utf8
  import opened Sse
  import Ndjson
  import OpenAiSse
  import SameReply
  import Anthropic
  import AnthropicTexts
  import Gemini
  import Ollama
  import OpenAi

  /** The events a body holds: pings are not parsed where events have names, and what does not parse is
      skipped. */
  function Understood<C>(parse: string -> Option<C>, said: seq<Fields>): seq<C> {
    if said == [] then []
    else
      var before, f := Understood(parse, said[..|said| - 1]), said[|said| - 1];
      var c := if f.event == Some("ping") then None else parse(Join(f.data, "\n"));
      if c.Some? then before + [c.value] else before
  }

  method Understand<C>(parse: string -> Option<C>, said: seq<Fields>) returns (chunks: seq<C>)
    ensures chunks == Understood(parse, said)
  {
    chunks := [];
    for k := 0 to |said|
      invariant chunks == Understood(parse, said[..k])
    {
      assert said[..k + 1][..k] == said[..k];
      if said[k].event == Some("ping") {
        continue;
      }
      var c := parse(Join(said[k].data, "\n"));
      if c.Some? {
        chunks := chunks + [c.value];
      }
    }
    assert said[..|said|] == said;
  }

  method OllamaReply(parse: string -> Option<Ollama.ChatResponse>, network: seq<seq<Byte>>)
    returns (r: Result<CompleteResponse, ProviderError>)
    ensures Decode(Concat(network)).Some? ==>
      var read := Ndjson.Parsed(parse, Ndjson.Lines(Decode(Concat(network)).value));
      if read.bad.Some? || read.items == [] then r.Err? else r == Ok(Ollama.Reply(read.items))
  {
    hide *;
    var chunks, bad := Ndjson.ReadAll(parse, network);
    if bad.Some? {
      return Err(Internal("NDJSON decode error"));
    }
    var events;
    events, r := Ollama.ConsumeNdjson(chunks);
  }

  method OpenAiReply(parse: string -> Option<OpenAi.ChatCompletionChunk>, parseArgs: string -> Option<Value>,
                     network: seq<seq<Byte>>)
    returns (r: Result<CompleteResponse, ProviderError>)
    ensures AllValid(Concat(network)) ==>
      var heard := OpenAiSse.Outcome(parse, Said(false, Frames(Concat(network))), Leftover(Concat(network)) != []);
      if heard.ending.Truncated? || heard.chunks == [] then r.Err? else r == Ok(OpenAi.Reply(heard.chunks, parseArgs))
  {
    hide *;
    var chunks, ending := OpenAiSse.ReadAll(parse, network);
    if ending.Truncated? {
      return Err(Network("stream truncated mid-frame"));
    }
    var events;
    events, r := OpenAi.ConsumeSse(parseArgs, chunks);
  }

  method GeminiReply(parse: string -> Option<Gemini.Response>, network: seq<seq<Byte>>)
    returns (r: Result<CompleteResponse, ProviderError>)
    ensures AllValid(Concat(network)) ==>
      var chunks := Understood(parse, Said(false, Frames(Concat(network))));
      if chunks == [] then r.Err? else r == Ok(Gemini.ReplyTo(chunks))
  {
    hide *;
    var said := Sse.ReadAll(false, network);
    var chunks := Understand(parse, said);
    var events;
    events, r := Gemini.ConsumeSse(chunks);
  }

  method AnthropicReply(parse: string -> Option<Anthropic.UpEvent>, parseArgs: string -> Option<Value>,
                        network: seq<seq<Byte>>)
    returns (r: Result<CompleteResponse, ProviderError>)
    requires AllValid(Concat(network))
    requires Anthropic.WellFormed(Understood(parse, Said(true, Frames(Concat(network)))), parseArgs)
    ensures var events := Understood(parse, Said(true, Frames(Concat(network))));
            r == Anthropic.Outcome(events, Anthropic.HearAll(Anthropic.QUIET, events, parseArgs).value.said, parseArgs)
  {
    hide Frames, Said, Understood, AllValid, Anthropic.HearAll, Anthropic.Outcome, Assemble, Replay;
    var said := Sse.ReadAll(true, network);
    var chunks := Understand(parse, said);
    var events;
    events, r := Anthropic.ConsumeSse(parseArgs, chunks);
  }

  // Bodies that say one text and nothing else.

  ghost predicate OllamaSays(parse: string -> Option<Ollama.ChatResponse>, body: seq<Byte>, text: string) {
    && Decode(body).Some?
    && var read := Ndjson.Parsed(parse, Ndjson.Lines(Decode(body).value));
       && read.bad.None? && read.items != [] && SameReply.OllamaTextOnly(read.items)
       && Concat(SameReply.OllamaTexts(read.items)) == text
  }

  ghost predicate OpenAiSays(parse: string -> Option<OpenAi.ChatCompletionChunk>, body: seq<Byte>, text: string) {
    && AllValid(body)
    && var heard := OpenAiSse.Outcome(parse, Said(false, Frames(body)), Leftover(body) != []);
       && heard.ending.Finished? && heard.chunks != [] && SameReply.OpenAiTextOnly(heard.chunks)
       && Concat(SameReply.OpenAiTexts(heard.chunks)) == text
  }

  ghost predicate GeminiSays(parse: string -> Option<Gemini.Response>, body: seq<Byte>, text: string) {
    && AllValid(body)
    && var chunks := Understood(parse, Said(false, Frames(body)));
       && chunks != [] && SameReply.GeminiTextOnly(chunks)
       && Concat(SameReply.GeminiTexts(Gemini.AllParts(chunks))) == text
  }

  ghost predicate AnthropicSays(parse: string -> Option<Anthropic.UpEvent>, parseArgs: string -> Option<Value>,
                                body: seq<Byte>, text: string) {
    && AllValid(body)
    && var events := Understood(parse, Said(true, Frames(body)));
       SameReply.AnthropicTextOnly(events, parseArgs) && Concat(SameReply.AnthropicDeltas(events)) == text
  }

  method OllamaText(text: string, parse: string -> Option<Ollama.ChatResponse>, network: seq<seq<Byte>>)
    returns (r: Result<CompleteResponse, ProviderError>)
    requires CutSafe(text, false) && OllamaSays(parse, Concat(network), text)
    ensures r.Ok? && r.value.content == SameReply.Reply(text)
  {
    hide Decode, CutSafe, SameReply.Reply, SameReply.OllamaTexts;
    r := OllamaReply(parse, network);
    ghost var chunks := Ndjson.Parsed(parse, Ndjson.Lines(Decode(Concat(network)).value)).items;
    SameReply.OllamaContent(chunks);
    SameReply.StreamedIsReply(SameReply.OllamaTexts(chunks));
  }

  method OpenAiText(text: string, parse: string -> Option<OpenAi.ChatCompletionChunk>,
                    parseArgs: string -> Option<Value>,
                    network: seq<seq<Byte>>)
    returns (r: Result<CompleteResponse, ProviderError>)
    requires CutSafe(text, false) && OpenAiSays(parse, Concat(network), text)
    ensures r.Ok? && r.value.content == SameReply.Reply(text)
  {
    hide Frames, Leftover, CutSafe, Said, SameReply.Reply, SameReply.OpenAiTexts;
    r := OpenAiReply(parse, parseArgs, network);
    ghost var body := Concat(network);
    ghost var chunks := OpenAiSse.Outcome(parse, Said(false, Frames(body)), Leftover(body) != []).chunks;
    SameReply.OpenAiContent(chunks, parseArgs);
    SameReply.StreamedIsReply(SameReply.OpenAiTexts(chunks));
  }

  method GeminiText(text: string, parse: string -> Option<Gemini.Response>, network: seq<seq<Byte>>)
    returns (r: Result<CompleteResponse, ProviderError>)
    requires CutSafe(text, false) && GeminiSays(parse, Concat(network), text)
    ensures r.Ok? && r.value.content == SameReply.Reply(text)
  {
    hide Frames, CutSafe, Said, Understood, SameReply.Reply, SameReply.GeminiTexts;
    r := GeminiReply(parse, network);
    ghost var chunks := Understood(parse, Said(false, Frames(Concat(network))));
    SameReply.GeminiContent(chunks);
    SameReply.StreamedIsReply(SameReply.GeminiTexts(Gemini.AllParts(chunks)));
  }

  method AnthropicText(text: string, parse: string -> Option<Anthropic.UpEvent>, parseArgs: string -> Option<Value>,
                       network: seq<seq<Byte>>)
    returns (r: Result<CompleteResponse, ProviderError>)
    requires CutSafe(text, false) && AnthropicSays(parse, parseArgs, Concat(network), text)
    ensures var events := Understood(parse, Said(true, Frames(Concat(network))));
            && r.Ok?
            && r.value.content == if SameReply.Reply(text) != [] then SameReply.Reply(text)
              else AnthropicTexts.RawContent(events)
  {
    hide Frames, CutSafe, Said, Understood, Assemble, Anthropic.HearAll, Anthropic.Reply, SameReply.Reply;
    hide SameReply.Streamed;
    hide AnthropicTexts.RawContent, AnthropicTexts.TextBlocks;
    r := AnthropicReply(parse, parseArgs, network);
    ghost var events := Understood(parse, Said(true, Frames(Concat(network))));
    SameReply.AnthropicContent(events, parseArgs);
    SameReply.StreamedIsReply(SameReply.AnthropicDeltas(events));
  }

  /** The same text-only reply, sent by each provider in whatever deltas, frames and network chunks: the final
      content is the reference parse of its text; only the Anthropic adapter falls back to the raw text when
      that parse is empty. */
  method SameFromBytes(text: string, parseArgs: string -> Option<Value>,
                       ollamaParse: string -> Option<Ollama.ChatResponse>, ollama: seq<seq<Byte>>,
                       openAiParse: string -> Option<OpenAi.ChatCompletionChunk>, openAi: seq<seq<Byte>>,
                       geminiParse: string -> Option<Gemini.Response>, gemini: seq<seq<Byte>>,
                       anthropicParse: string -> Option<Anthropic.UpEvent>, anthropic: seq<seq<Byte>>)
    returns (l: Result<CompleteResponse, ProviderError>, o: Result<CompleteResponse, ProviderError>,
             g: Result<CompleteResponse, ProviderError>, a: Result<CompleteResponse, ProviderError>)
    requires CutSafe(text, false)
    requires OllamaSays(ollamaParse, Concat(ollama), text) && OpenAiSays(openAiParse, Concat(openAi), text)
    requires GeminiSays(geminiParse, Concat(gemini), text)
    requires AnthropicSays(anthropicParse, parseArgs, Concat(anthropic), text)
    ensures l.Ok? && o.Ok? && g.Ok? && a.Ok?
    ensures l.value.content == o.value.content == g.value.content == SameReply.Reply(text)
    ensures var events := Understood(anthropicParse, Said(true, Frames(Concat(anthropic))));
            a.value.content == if SameReply.Reply(text) != [] then SameReply.Reply(text)
                else AnthropicTexts.RawContent(events)
  {
    hide *;
    l := OllamaText(text, ollamaParse, ollama);
    o := OpenAiText(text, openAiParse, parseArgs, openAi);
    g := GeminiText(text, geminiParse, gemini);
    a := AnthropicText(text, anthropicParse, parseArgs, anthropic);
  }
}
