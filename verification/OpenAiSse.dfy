/** The OpenAI provider's reading of an SSE body: `[DONE]` ends it, frames that are not a chunk are
    skipped, and a body that stops inside a frame is an error
    (crates/provider-openai/src/stream.rs). */
module OpenAiSse {
  import opened Base
  import opened Utf8
  import opened Sse
  import Ndjson

  datatype SseItem<C> = Chunk(c: C) | Done

  datatype Ending = Finished | Truncated

  /** All a body gives: its chunks, and how it ends. */
  datatype Heard<C> = Heard(chunks: seq<C>, ending: Ending)

  function Data(f: Fields): string {
    Join(f.data, "")
  }

  predicate SaysDone(f: Fields) {
    Ndjson.Trim(Data(f)) == "[DONE]"
  }

  function Outcome<C>(parse: string -> Option<C>, said: seq<Fields>, unfinished: bool): Heard<C> {
    if said == [] then Heard([], if unfinished then Truncated else Finished)
    else if SaysDone(said[0]) then Heard([], Finished)
    else
      var rest := Outcome(parse, said[1..], unfinished);
      var c := parse(Data(said[0]));
      if c.Some? then Heard([c.value] + rest.chunks, rest.ending) else rest
  }

  function ParsedChunks<C>(parse: string -> Option<C>, said: seq<Fields>): seq<C> {
    if said == [] then []
    else
      var c := parse(Data(said[0]));
      (if c.Some? then [c.value] else []) + ParsedChunks(parse, said[1..])
  }

  lemma ParsedNothing<C>(parse: string -> Option<C>)
    ensures ParsedChunks(parse, []) == []
  {
  }

  lemma ParsedFirst<C>(parse: string -> Option<C>, said: seq<Fields>)
    requires said != []
    ensures var c := parse(Data(said[0]));
            ParsedChunks(parse, said) == (if c.Some? then [c.value] else []) + ParsedChunks(parse, said[1..])
  {
  }

  /** With a `[DONE]` frame, what is before the first one counts and the rest of the body, finished or
      not, does not.  Without one, every chunk counts and the end is clean exactly when nothing is left. */
  lemma {:induction false} OutcomeMeaning<C>(parse: string -> Option<C>, said: seq<Fields>, unfinished: bool)
    ensures forall k | 0 <= k < |said| ::
      SaysDone(said[k]) && (forall j | 0 <= j < k :: !SaysDone(said[j])) ==>
      Outcome(parse, said, unfinished) == Heard(ParsedChunks(parse, said[..k]), Finished)
    ensures (forall f <- said :: !SaysDone(f)) ==>
      Outcome(parse, said, unfinished)
      == Heard(ParsedChunks(parse, said), if unfinished then Truncated else Finished)
  {
    hide SaysDone, Data, ParsedChunks;
    ParsedNothing(parse);
    if said != [] && !SaysDone(said[0]) {
      var rest := said[1..];
      OutcomeMeaning(parse, rest, unfinished);
      ParsedFirst(parse, said);
      forall k | 0 <= k < |said| && SaysDone(said[k]) && forall j | 0 <= j < k :: !SaysDone(said[j])
        ensures Outcome(parse, said, unfinished) == Heard(ParsedChunks(parse, said[..k]), Finished)
      {
        assert said[k] == rest[k - 1] && said[..k][1..] == rest[..k - 1] && said[..k][0] == said[0];
        ParsedFirst(parse, said[..k]);
        assert forall j | 0 <= j < k - 1 :: rest[j] == said[j + 1];
      }
    }
  }

  ghost function Coming<C>(sse: SseBuffer, parse: string -> Option<C>): Heard<C>
    requires sse.ValidAhead()
    reads sse`buf, sse`inner
  {
    Outcome(parse, sse.SaidAhead(), Leftover(sse.Ahead()) != [])
  }

  ghost function Before<C>(item: SseItem<C>, after: Heard<C>): Heard<C> {
    match item
    case Chunk(c) => Heard([c] + after.chunks, after.ending)
    case Done => Heard([], Finished)
  }

  method TryPop<C>(sse: SseBuffer, parse: string -> Option<C>) returns (item: Option<SseItem<C>>)
    modifies sse`buf
    ensures |sse.buf| <= old(|sse.buf|)
    ensures item.Some? ==> |sse.buf| < old(|sse.buf|)
    ensures old(sse.ValidAhead()) ==>
      && sse.ValidAhead()
      && (item.Some? ==> old(Coming(sse, parse)) == Before(item.value, Coming(sse, parse)))
      && (item.None? ==> old(Coming(sse, parse)) == Coming(sse, parse) && FrameEnd(sse.buf) == 0)
    decreases |sse.buf|
  {
    hide FrameEnd, Frames, Said, Leftover, Data, SaysDone, AllValid;
    ghost var valid := sse.ValidAhead();
    ghost var said := if valid then sse.SaidAhead() else [];
    var f := sse.TryPopFields();
    if f.None? {
      assert valid ==> said == sse.SaidAhead();
      return None;
    }
    if valid {
      assert said[0] == f.value && said[1..] == sse.SaidAhead();
    }
    if SaysDone(f.value) {
      return Some(Done);
    }
    var c := parse(Data(f.value));
    if c.None? {
      item := TryPop(sse, parse);
      return;
    }
    return Some(Chunk(c.value));
  }

  method Next<C>(sse: SseBuffer, parse: string -> Option<C>) returns (r: Result<SseItem<C>, string>)
    modifies sse`buf, sse`inner
    ensures r.Ok? ==> |sse.Ahead()| < old(|sse.Ahead()|) || r.value == Done
    ensures old(sse.ValidAhead()) ==>
      && sse.ValidAhead()
      && old(Coming(sse, parse))
      == if r.Err? then Heard([], Truncated) else Before(r.value, Coming(sse, parse))
  {
    hide Frames, Said, Leftover, AllValid;
    ghost var valid := sse.ValidAhead();
    ghost var coming := if valid then Coming(sse, parse) else Heard([], Finished);
    while true
      invariant |sse.Ahead()| <= old(|sse.Ahead()|)
      invariant valid ==> sse.ValidAhead() && Coming(sse, parse) == coming
      decreases |sse.inner|
      modifies sse`buf, sse`inner
    {
      var item := TryPop(sse, parse);
      if item.Some? {
        return Ok(item.value);
      }
      if sse.inner == [] {
        assert sse.buf + [] == sse.buf;
        if valid {
          NothingFramed(sse.buf);
        }
        return if sse.buf != [] then Err("stream truncated mid-frame") else Ok(Done);
      }
      assert (sse.buf + sse.inner[0]) + Concat(sse.inner[1..]) == sse.Ahead();
      sse.buf, sse.inner := sse.buf + sse.inner[0], sse.inner[1..];
    }
  }

  lemma NothingFramed(bs: seq<Byte>)
    requires FrameEnd(bs) == 0
    ensures AllValid(bs) && Said(false, Frames(bs)) == Said(true, Frames(bs)) == [] && Leftover(bs) == bs
  {
  }

  /** For every cut of every body whose complete frames are valid UTF-8, the chunks handed on and the way
      the body ends are those of the whole body. */
  method ReadAll<C>(parse: string -> Option<C>, chunks: seq<seq<Byte>>) returns (items: seq<C>, ending: Ending)
    ensures AllValid(Concat(chunks)) ==>
      Heard(items, ending)
      == Outcome(parse, Said(false, Frames(Concat(chunks))), Leftover(Concat(chunks)) != [])
  {
    hide Frames, Said, Leftover, AllValid, Outcome;
    var sse := new SseBuffer(false, chunks);
    items := [];
    ghost var valid := sse.ValidAhead();
    ghost var all := if valid then Coming(sse, parse) else Heard([], Finished);
    while true
      invariant fresh(sse) && sse.events == false
      invariant valid ==> sse.ValidAhead()
      invariant valid ==> all.ending == Coming(sse, parse).ending && all.chunks == items + Coming(sse, parse).chunks
      decreases |sse.Ahead()|
      modifies sse
    {
      var r := Next(sse, parse);
      if r.Err? {
        return items, Truncated;
      }
      match r.value {
        case Chunk(c) => items := items + [c];
        case Done => return items, Finished;
      }
    }
  }
}
