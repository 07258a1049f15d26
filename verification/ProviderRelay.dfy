/** What a provider sends is what its adapter reads: bodies of JSON payloads in frames or lines, through the decoders
    (crates/provider-openai/src/stream.rs, crates/provider-gemini/src/stream.rs,
    crates/provider-anthropic/src/stream.rs, crates/provider-local/src/stream.rs). */
module ProviderRelay {
  import opened Base
  import opened Fence
  import opened Utf8
  import opened Sse
  import opened SseRoundTrip
  import Ndjson
  import OpenAiSse
  import WholeReply

  /** The event name aside, a frame says the same to every decoder. */
  lemma {:induction false} SameData(lines: seq<Line>)
    ensures Message(false, lines) == Fields(None, Message(true, lines).data)
  {
    if lines != [] {
      SameData(lines[..|lines| - 1]);
    }
  }

  /** The chunks and then `[DONE]`. */
  ghost predicate OpenAiBody<C>(frames: seq<seq<Line>>, chunks: seq<C>, parse: string -> Option<C>) {
    && |frames| == |chunks| + 1
    && Message(true, frames[|chunks|]).data == ["[DONE]"]
    && forall k | 0 <= k < |chunks| ::
         var m := Message(true, frames[k]);
         |m.data| == 1 && parse(m.data[0]) == Some(chunks[k]) && Ndjson.Trim(m.data[0]) != "[DONE]"
  }

  lemma {:induction false} OpenAiHears<C>(frames: seq<seq<Line>>, chunks: seq<C>, parse: string -> Option<C>)
    requires OpenAiBody(frames, chunks, parse)
    ensures OpenAiSse.Outcome(parse, Messages(false, frames), false) == OpenAiSse.Heard(chunks, OpenAiSse.Finished)
    decreases |chunks|
  {
    hide Message, Ndjson.Trim;
    SameData(frames[0]);
    OneData(Message(true, frames[0]).data);
    if chunks == [] {
      DoneIsTrimmed();
    } else {
      OpenAiHears(frames[1..], chunks[1..], parse);
      assert chunks == [chunks[0]] + chunks[1..];
    }
  }

  lemma OneData(data: seq<string>)
    ensures |data| == 1 ==> Join(data, "") == Join(data, "\n") == data[0]
  {
  }

  lemma DoneIsTrimmed()
    ensures Ndjson.Trim("[DONE]") == "[DONE]"
  {
    assert "[DONE]"[5] == ']' && "[DONE]"[0] == '[';
  }

  /** An OpenAI body, however the network cuts it: exactly its chunks, and a clean end. */
  method OpenAiRelay<C>(parse: string -> Option<C>, ghost frames: seq<seq<Line>>, ghost chunks: seq<C>,
                        ghost nl: string,
                        network: seq<seq<Byte>>)
    returns (items: seq<C>, ending: OpenAiSse.Ending)
    requires IsLineEnding(nl) && Sendable(frames) && OpenAiBody(frames, chunks, parse)
    requires Concat(network) == Encode(SseRoundTrip.Body(frames, nl))
    ensures items == chunks && ending == OpenAiSse.Finished
  {
    RoundTrip(false, frames, nl);
    OpenAiHears(frames, chunks, parse);
    items, ending := OpenAiSse.ReadAll(parse, network);
  }

  // ---------------------------------------------------------------------------------------------
  // Gemini and Anthropic
  // ---------------------------------------------------------------------------------------------

  /** The frames hold one payload each, which parses; a frame named `ping` holds none that is wanted. */
  ghost predicate JsonBody<C>(frames: seq<seq<Line>>, sent: seq<Option<C>>, parse: string -> Option<C>) {
    && |frames| == |sent|
    && forall k | 0 <= k < |frames| ::
         var m := Message(true, frames[k]);
         && |m.data| == 1
         && if sent[k].None? then m.event == Some("ping") else m.event != Some("ping") && parse(m.data[0]) == sent[k]
  }

  function Somes<C>(sent: seq<Option<C>>): seq<C> {
    if sent == [] then [] else (if sent[0].Some? then [sent[0].value] else []) + Somes(sent[1..])
  }

  lemma {:induction false} UnderstoodFirst<C>(parse: string -> Option<C>, m: Fields, said: seq<Fields>)
    ensures WholeReply.Understood(parse, [m] + said)
         == WholeReply.Understood(parse, [m]) + WholeReply.Understood(parse, said)
    decreases |said|
  {
    if said == [] {
      assert [m] + said == [m];
    } else {
      var n := |said| - 1;
      UnderstoodFirst(parse, m, said[..n]);
      assert ([m] + said)[..|said|] == [m] + said[..n];
    }
  }

  lemma UnderstoodOne<C>(parse: string -> Option<C>, m: Fields)
    requires |m.data| == 1
    ensures WholeReply.Understood(parse, [m])
         == if m.event == Some("ping") || parse(m.data[0]).None? then [] else [parse(m.data[0]).value]
  {
    OneData(m.data);
    assert [m][..0] == [];
    assert WholeReply.Understood(parse, []) == [];
  }

  /** With event names the pings are left out; without, there must be none. */
  lemma {:induction false} JsonHears<C>(events: bool, frames: seq<seq<Line>>, sent: seq<Option<C>>,
                                        parse: string -> Option<C>)
    requires JsonBody(frames, sent, parse) && (events || None !in sent)
    ensures WholeReply.Understood(parse, Messages(events, frames)) == Somes(sent)
    decreases |frames|
  {
    hide Message, WholeReply.Understood;
    if frames == [] {
      assert WholeReply.Understood(parse, []) == [] by { NothingUnderstood(parse); }
    } else {
      SameData(frames[0]);
      var m := Message(events, frames[0]);
      JsonHears(events, frames[1..], sent[1..], parse);
      UnderstoodFirst(parse, m, Messages(events, frames[1..]));
      UnderstoodOne(parse, m);
      assert sent[0] in sent;
    }
  }

  lemma NothingUnderstood<C>(parse: string -> Option<C>)
    ensures WholeReply.Understood(parse, []) == []
  {
  }

  /** A Gemini body: exactly its chunks. */
  method GeminiRelay<C>(parse: string -> Option<C>, ghost frames: seq<seq<Line>>, ghost sent: seq<Option<C>>,
                        ghost nl: string,
                        network: seq<seq<Byte>>)
    returns (items: seq<C>)
    requires IsLineEnding(nl) && Sendable(frames) && JsonBody(frames, sent, parse) && None !in sent
    requires Concat(network) == Encode(SseRoundTrip.Body(frames, nl))
    ensures items == Somes(sent)
  {
    JsonHears(false, frames, sent, parse);
    var said := Relay(false, frames, nl, network);
    items := WholeReply.Understand(parse, said);
  }

  /** An Anthropic body: exactly its events but for the pings. */
  method AnthropicRelay<C>(parse: string -> Option<C>, ghost frames: seq<seq<Line>>, ghost sent: seq<Option<C>>,
                           ghost nl: string,
                           network: seq<seq<Byte>>)
    returns (items: seq<C>)
    requires IsLineEnding(nl) && Sendable(frames) && JsonBody(frames, sent, parse)
    requires Concat(network) == Encode(SseRoundTrip.Body(frames, nl))
    ensures items == Somes(sent)
  {
    JsonHears(true, frames, sent, parse);
    var said := Relay(true, frames, nl, network);
    items := WholeReply.Understand(parse, said);
  }

  // ---------------------------------------------------------------------------------------------
  // Ollama
  // ---------------------------------------------------------------------------------------------

  /** The payloads, one a line, with any white space around them and blank lines between. */
  function LinesText(lines: seq<string>): string {
    if lines == [] then "" else lines[0] + "\n" + LinesText(lines[1..])
  }

  /** Each line is white space, a payload that starts and ends in something else, and white space. */
  ghost predicate NdjsonBody<C>(lines: seq<string>, sent: seq<Option<C>>, parse: string -> Option<C>) {
    && |lines| == |sent|
    && forall k | 0 <= k < |lines| ::
         && '\n' !in lines[k]
         && exists before, payload, after ::
              Ndjson.Padded(lines[k], before, payload, after) && Fits(payload, sent[k], parse)
  }

  ghost predicate Fits<C>(payload: string, sent: Option<C>, parse: string -> Option<C>) {
    if sent.None? then payload == "" else payload != "" && parse(payload) == sent
  }

  lemma {:induction false} NdjsonHears<C>(lines: seq<string>, sent: seq<Option<C>>, parse: string -> Option<C>)
    requires NdjsonBody(lines, sent, parse)
    ensures Ndjson.Parsed(parse, Ndjson.Lines(LinesText(lines))) == Ndjson.Reading(Somes(sent), None)
    decreases |lines|
  {
    hide Ndjson.Padded, Ndjson.Lines, Ndjson.Trim;
    if lines == [] {
      Ndjson.LinesOfNothing();
    } else {
      NdjsonHears(lines[1..], sent[1..], parse);
      var before, payload, after :| Ndjson.Padded(lines[0], before, payload, after) && Fits(payload, sent[0], parse);
      LineKept(lines[0], before, payload, after, LinesText(lines[1..]));
      var later := Ndjson.Lines(LinesText(lines[1..]));
      assert ([payload] + later)[1..] == later && [] + later == later;
    }
  }

  lemma LineKept(line: string, before: string, payload: string, after: string, rest: string)
    requires Ndjson.Padded(line, before, payload, after) && '\n' !in line
    ensures Ndjson.Lines(line + "\n" + rest) == (if payload == "" then [] else [payload]) + Ndjson.Lines(rest)
  {
    hide Ndjson.Lines, Ndjson.Trim;
    Ndjson.LinesStep(line, rest);
    assert line + "\n" == before + payload + (after + "\n");
    Ndjson.TrimPadded(before, payload, after + "\n");
  }

  /** An Ollama body: exactly its chunks. */
  method OllamaRelay<C>(parse: string -> Option<C>, ghost lines: seq<string>, ghost sent: seq<Option<C>>,
                        network: seq<seq<Byte>>)
    returns (items: seq<C>, bad: Option<string>)
    requires NdjsonBody(lines, sent, parse) && Concat(network) == Encode(LinesText(lines))
    ensures items == Somes(sent) && bad == None
  {
    NdjsonHears(lines, sent, parse);
    DecodeEncode(LinesText(lines));
    items, bad := Ndjson.ReadAll(parse, network);
  }
}
