/** What a reply says of itself, told from the chunks alone: identity, stop reason and usage
    (crates/provider-local/src/stream.rs, crates/provider-openai/src/stream.rs, crates/provider-gemini/src/stream.rs,
    crates/provider-anthropic/src/stream.rs). */
module Summaries {
  import opened Base
  import opened Spp
  import Anthropic
  import Gemini
  import Ollama
  import OpenAi

  // ---------------------------------------------------------------------------------------------
  // Ollama
  // ---------------------------------------------------------------------------------------------

  /** The k-th chunk is the last that is flagged `done`. */
  predicate LastDone(chunks: seq<Ollama.ChatResponse>, k: int) {
    0 <= k < |chunks| && chunks[k].done && forall j | k < j < |chunks| :: !chunks[j].done
  }

  lemma {:induction false} DoneIsLast(chunks: seq<Ollama.ChatResponse>, k: int)
    ensures LastDone(chunks, k) ==> Ollama.LastDone(chunks) == Some(chunks[k])
    ensures (forall c <- chunks :: !c.done) ==> Ollama.LastDone(chunks) == None
  {
    if chunks != [] && !chunks[|chunks| - 1].done {
      DoneIsLast(chunks[..|chunks| - 1], k);
    }
  }

  /** Model of the first chunk, reason and usage of the last one flagged `done`. */
  lemma OllamaSummary(chunks: seq<Ollama.ChatResponse>, k: int)
    requires chunks != []
    ensures var r := Ollama.Reply(chunks);
            && r.id == "ollama-stream" && r.stopSequence == None
            && r.model == (match chunks[0].model case Some(m) => m case None => "")
            && (LastDone(chunks, k) ==>
                  && (r.stopReason == MaxTokens <==> chunks[k].doneReason == Some("length"))
                  && (r.stopReason == ToolTurn <==> chunks[k].doneReason == Some("tool_calls"))
                  && r.stopReason in {EndTurn, MaxTokens, ToolTurn}
                  && r.usage.inputTokens == (match chunks[k].promptEvalCount case Some(n) => n case None => 0)
                  && r.usage.outputTokens == (match chunks[k].evalCount case Some(n) => n case None => 0))
            && ((forall c <- chunks :: !c.done) ==> r.stopReason == EndTurn && r.usage == NO_USAGE)
  {
    hide Ollama.Items, Assemble;
    DoneIsLast(chunks, k);
  }

  // ---------------------------------------------------------------------------------------------
  // OpenAI
  // ---------------------------------------------------------------------------------------------

  predicate OpenAiReports(c: OpenAi.ChatCompletionChunk, reason: string) {
    c.choices != [] && c.choices[0].finishReason == Some(reason)
  }

  predicate OpenAiSilent(c: OpenAi.ChatCompletionChunk) {
    c.choices == [] || c.choices[0].finishReason == None
  }

  predicate OpenAiLastReason(chunks: seq<OpenAi.ChatCompletionChunk>, k: int, reason: string) {
    0 <= k < |chunks| && OpenAiReports(chunks[k], reason) && forall j | k < j < |chunks| :: OpenAiSilent(chunks[j])
  }

  predicate OpenAiLastUsage(chunks: seq<OpenAi.ChatCompletionChunk>, k: int) {
    0 <= k < |chunks| && chunks[k].usage.Some? && forall j | k < j < |chunks| :: chunks[j].usage.None?
  }

  /** What each finish reason stands for. */
  predicate OpenAiMeans(r: StopReason, s: string) {
    && (r == EndTurn <==> s == "stop") && (r == MaxTokens <==> s == "length")
    && (r == ToolTurn <==> s == "tool_calls" || s == "function_call") && (r == Refusal <==> s == "content_filter")
  }

  lemma {:induction false} OpenAiReasonIsLast(chunks: seq<OpenAi.ChatCompletionChunk>, k: int, reason: string)
    ensures OpenAiLastReason(chunks, k, reason) ==>
              OpenAi.LastReason(chunks).Some? && OpenAiMeans(OpenAi.LastReason(chunks).value, reason)
    ensures (forall c <- chunks :: OpenAiSilent(c)) ==> OpenAi.LastReason(chunks) == None
  {
    if chunks != [] && OpenAiSilent(chunks[|chunks| - 1]) {
      OpenAiReasonIsLast(chunks[..|chunks| - 1], k, reason);
    }
  }

  lemma {:induction false} OpenAiUsageIsLast(chunks: seq<OpenAi.ChatCompletionChunk>, k: int)
    ensures OpenAiLastUsage(chunks, k) ==>
              OpenAi.LastUsage(chunks)
              == Usage(chunks[k].usage.value.promptTokens, chunks[k].usage.value.completionTokens, None, None)
    ensures (forall c <- chunks :: c.usage.None?) ==> OpenAi.LastUsage(chunks) == NO_USAGE
  {
    if chunks != [] && chunks[|chunks| - 1].usage.None? {
      OpenAiUsageIsLast(chunks[..|chunks| - 1], k);
    }
  }

  /** Identity of the first chunk, the last reason and the last usage reported. */
  lemma OpenAiSummary(chunks: seq<OpenAi.ChatCompletionChunk>, parse: string -> Option<Value>, k: int, reason: string)
    requires chunks != []
    ensures var r := OpenAi.Reply(chunks, parse);
            && r.id == chunks[0].id && r.model == chunks[0].model && r.stopSequence == None
            && (OpenAiLastReason(chunks, k, reason) ==> OpenAiMeans(r.stopReason, reason))
            && ((forall c <- chunks :: OpenAiSilent(c)) ==> r.stopReason == EndTurn)
            && (OpenAiLastUsage(chunks, k) ==>
                  r.usage == Usage(chunks[k].usage.value.promptTokens, chunks[k].usage.value.completionTokens, None,
                                   None))
            && ((forall c <- chunks :: c.usage.None?) ==> r.usage == NO_USAGE)
  {
    hide OpenAi.Content, OpenAiMeans;
    OpenAiReasonIsLast(chunks, k, reason);
    OpenAiUsageIsLast(chunks, k);
  }

  // ---------------------------------------------------------------------------------------------
  // Gemini
  // ---------------------------------------------------------------------------------------------

  predicate GeminiReports(c: Gemini.Response, reason: string) {
    c.candidates != [] && c.candidates[0].finishReason == Some(reason)
  }

  predicate GeminiSilent(c: Gemini.Response) {
    c.candidates == [] || c.candidates[0].finishReason == None
  }

  predicate GeminiLastReason(chunks: seq<Gemini.Response>, k: int, reason: string) {
    0 <= k < |chunks| && GeminiReports(chunks[k], reason) && forall j | k < j < |chunks| :: GeminiSilent(chunks[j])
  }

  predicate HasCall(c: Gemini.Response) {
    c.candidates != [] && exists p <- c.candidates[0].parts :: p.functionCall.Some?
  }

  predicate GeminiMeans(r: StopReason, s: string) {
    && (r == EndTurn <==> s == "STOP") && (r == MaxTokens <==> s == "MAX_TOKENS")
    && (r == Refusal <==> s in {"SAFETY", "RECITATION", "BLOCKLIST", "PROHIBITED_CONTENT", "SPII", "IMAGE_SAFETY"})
    && r != ToolTurn
  }

  lemma {:induction false} GeminiReasonIsLast(chunks: seq<Gemini.Response>, k: int, reason: string)
    ensures GeminiLastReason(chunks, k, reason) ==>
              Gemini.LastReason(chunks).Some? && GeminiMeans(Gemini.LastReason(chunks).value, reason)
    ensures (forall c <- chunks :: GeminiSilent(c)) ==> Gemini.LastReason(chunks) == None
  {
    if chunks != [] && GeminiSilent(chunks[|chunks| - 1]) {
      GeminiReasonIsLast(chunks[..|chunks| - 1], k, reason);
    }
  }

  lemma {:induction false} CallsAreSeen(chunks: seq<Gemini.Response>)
    ensures Gemini.SawCall(chunks) <==> exists c <- chunks :: HasCall(c)
  {
    hide Gemini.SawCall;
    if chunks == [] {
      Gemini.NoneSawCall();
    } else {
      var init, last := chunks[..|chunks| - 1], chunks[|chunks| - 1];
      assert chunks == init + [last];
      CallsAreSeen(init);
      Gemini.SawCallSnoc(init, last);
      assert HasCall(last) <==> exists p <- Gemini.ChunkParts(last) :: p.functionCall.Some?;
    }
  }

  predicate LastCounted(chunks: seq<Gemini.Response>, k: int) {
    0 <= k < |chunks| && chunks[k].usage.Some? && forall j | k < j < |chunks| :: chunks[j].usage.None?
  }

  lemma {:induction false} CountIsLast(chunks: seq<Gemini.Response>, k: int)
    ensures LastCounted(chunks, k) ==>
              Gemini.LastCount(Gemini.Counts(chunks))
              == match chunks[k].usage.value.candidatesTokenCount case Some(n) => n case None => 0
    ensures (forall c <- chunks :: c.usage.None?) ==> Gemini.LastCount(Gemini.Counts(chunks)) == 0
  {
    if chunks != [] {
      Gemini.CountsSnoc(chunks);
      hide Gemini.Counts, Gemini.LastCount;
      if chunks[|chunks| - 1].usage.None? {
        CountIsLast(chunks[..|chunks| - 1], k);
      }
    }
  }

  /** The largest prompt count reported, 0 if there is none. */
  lemma {:induction false} PromptIsLargest(chunks: seq<Gemini.Response>)
    ensures forall c <- chunks | c.usage.Some? :: c.usage.value.promptTokenCount <= Gemini.MaxPrompt(chunks)
    ensures Gemini.MaxPrompt(chunks) == 0
            || exists c <- chunks :: c.usage.Some? && c.usage.value.promptTokenCount == Gemini.MaxPrompt(chunks)
  {
    if chunks != [] {
      PromptIsLargest(chunks[..|chunks| - 1]);
    }
  }

  predicate Cached(c: Gemini.Response, n: nat) {
    c.usage.Some? && c.usage.value.cachedContentTokenCount == Some(n)
  }

  ghost predicate LastCachedCount(chunks: seq<Gemini.Response>, k: int, n: nat) {
    0 <= k < |chunks| && Cached(chunks[k], n) && forall j, m | k < j < |chunks| :: !Cached(chunks[j], m)
  }

  lemma {:induction false} CachedIsLast(chunks: seq<Gemini.Response>, k: int, n: nat)
    ensures LastCachedCount(chunks, k, n) ==> Gemini.LastCached(chunks) == Some(n)
    ensures (forall c <- chunks, m :: !Cached(c, m)) ==> Gemini.LastCached(chunks) == None
  {
    if chunks != [] {
      var last := chunks[|chunks| - 1];
      if last.usage.Some? && last.usage.value.cachedContentTokenCount.Some? {
        assert Cached(last, last.usage.value.cachedContentTokenCount.value);
      } else {
        CachedIsLast(chunks[..|chunks| - 1], k, n);
      }
    }
  }

  /** Identity of the first chunk; ToolTurn after a call, else the last reason reported; the largest prompt count and
      the last of the other counts. */
  lemma GeminiSummary(chunks: seq<Gemini.Response>, k: int, reason: string, n: nat)
    requires chunks != []
    ensures var r := Gemini.ReplyTo(chunks);
            && r.id == (match chunks[0].responseId case Some(id) => id case None => "gemini-response")
            && r.model == (match chunks[0].modelVersion case Some(m) => m case None => "")
            && (r.stopReason == ToolTurn <==> exists c <- chunks :: HasCall(c))
            && ((forall c <- chunks :: !HasCall(c)) ==>
                  && (GeminiLastReason(chunks, k, reason) ==> GeminiMeans(r.stopReason, reason))
                  && ((forall c <- chunks :: GeminiSilent(c)) ==> r.stopReason == EndTurn))
            && (LastCounted(chunks, k) ==>
                  r.usage.outputTokens
                  == match chunks[k].usage.value.candidatesTokenCount case Some(n) => n case None => 0)
            && (forall c <- chunks | c.usage.Some? :: c.usage.value.promptTokenCount <= r.usage.inputTokens)
            && (r.usage.inputTokens == 0
                || exists c <- chunks :: c.usage.Some? && c.usage.value.promptTokenCount == r.usage.inputTokens)
            && (LastCachedCount(chunks, k, n) ==> r.usage.cacheRead == Some(n))
  {
    hide Gemini.Content, Gemini.SawCall, Gemini.LastReason, GeminiMeans, HasCall, GeminiSilent, GeminiLastReason;
    hide LastCounted, Gemini.Counts, Gemini.LastCount, Gemini.MaxPrompt, Gemini.LastCached, LastCachedCount;
    GeminiReasonIsLast(chunks, k, reason);
    CallsAreSeen(chunks);
    CountIsLast(chunks, k);
    PromptIsLargest(chunks);
    CachedIsLast(chunks, k, n);
    Gemini.ReasonIsTold(chunks);
  }

  // ---------------------------------------------------------------------------------------------
  // Anthropic
  // ---------------------------------------------------------------------------------------------

  predicate Reports(e: Anthropic.UpEvent, reason: string) {
    e.UpMessageDelta? && e.stopReason == Some(reason)
  }

  predicate Stops(e: Anthropic.UpEvent, sequence: string) {
    e.UpMessageDelta? && e.stopSequence == Some(sequence)
  }

  lemma {:induction false} ReportedIsLast(events: seq<Anthropic.UpEvent>, k: int, reason: string)
    ensures 0 <= k < |events| && Reports(events[k], reason)
            && (forall j, s | k < j < |events| :: !Reports(events[j], s))
            ==> Anthropic.LastReported(events) == Some(reason)
    ensures (forall e <- events, s :: !Reports(e, s)) ==> Anthropic.LastReported(events) == None
  {
    if events != [] {
      var last := events[|events| - 1];
      if last.UpMessageDelta? && last.stopReason.Some? {
        assert Reports(last, last.stopReason.value);
      } else {
        ReportedIsLast(events[..|events| - 1], k, reason);
      }
    }
  }

  lemma {:induction false} SequenceIsLast(events: seq<Anthropic.UpEvent>, k: int, sequence: string)
    ensures 0 <= k < |events| && Stops(events[k], sequence) && (forall j, s | k < j < |events| :: !Stops(events[j], s))
            ==> Anthropic.LastSequence(events) == Some(sequence)
    ensures (forall e <- events, s :: !Stops(e, s)) ==> Anthropic.LastSequence(events) == None
  {
    if events != [] {
      var last := events[|events| - 1];
      if last.UpMessageDelta? && last.stopSequence.Some? {
        assert Stops(last, last.stopSequence.value);
      } else {
        SequenceIsLast(events[..|events| - 1], k, sequence);
      }
    }
  }

  /** The message start is found wherever it stands. */
  lemma {:induction false} StartIsFound(events: seq<Anthropic.UpEvent>, k: int)
    requires 0 <= k < |events| && events[k].UpMessageStart? && forall j | k < j < |events| :: !events[j].UpMessageStart?
    ensures Anthropic.LastStart(events) == Some(events[k])
  {
    if k < |events| - 1 {
      StartIsFound(events[..|events| - 1], k);
    }
  }

  /** Identity and input usage of the message start, the last reason and the last stop sequence reported. */
  lemma AnthropicSummary(events: seq<Anthropic.UpEvent>, said: seq<Item>, parse: string -> Option<Value>, m: int,
                         k: int,
                         s: string)
    requires 0 <= m < |events| && events[m].UpMessageStart? && forall j | m < j < |events| :: !events[j].UpMessageStart?
    ensures var r := Anthropic.Outcome(events, said, parse);
            r.Ok? ==>
              && r.value.id == events[m].id && r.value.model == events[m].model
              && r.value.usage.inputTokens == events[m].inputTokens
              && r.value.usage.outputTokens <= 4294967295
              && (Anthropic.Announced(events) <= 4294967295 ==>
                    r.value.usage.outputTokens == Anthropic.Announced(events))
              && r.value.usage.cacheCreation == events[m].cacheCreation
                && r.value.usage.cacheRead == events[m].cacheRead
              && (0 <= k < |events| && Reports(events[k], s)
                  && (forall j, t | k < j < |events| :: !Reports(events[j], t))
                  ==> Anthropic.Means(r.value.stopReason, s))
              && ((forall e <- events, t :: !Reports(e, t)) ==> r.value.stopReason == EndTurn)
              && (0 <= k < |events| && Stops(events[k], s) && (forall j, t | k < j < |events| :: !Stops(events[j], t))
                  ==> r.value.stopSequence == Some(s))
              && ((forall e <- events, t :: !Stops(e, t)) ==> r.value.stopSequence == None)
  {
    hide Anthropic.Reply, Anthropic.Means, Anthropic.LastReason, Anthropic.LastReported, Anthropic.LastSequence;
    hide Anthropic.LastStart, Anthropic.Announced, Reports, Stops;
    StartIsFound(events, m);
    ReportedIsLast(events, k, s);
    Anthropic.ReasonReported(events);
    SequenceIsLast(events, k, s);
  }
}
