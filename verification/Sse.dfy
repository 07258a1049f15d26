/** The server-sent-event decoders of the Anthropic, Gemini and OpenAI providers
    (crates/provider-anthropic/src/stream.rs, crates/provider-gemini/src/stream.rs,
    crates/provider-openai/src/stream.rs): the search for a frame separator, the lines of a frame,
    and the reading of a whole body in network chunks. */
module Sse {
  import opened Base
  import opened Fence
  import opened Utf8
  import Ndjson

  const LF: Byte := 0x0A
  const CR: Byte := 0x0D

  // ---------------------------------------------------------------------------------------------
  // Separators and frames
  // ---------------------------------------------------------------------------------------------

  /** The length of the separator the bytes start with: `\n\n` or `\r\n\r\n`; 0 if none. */
  function Separator(bs: seq<Byte>): (n: nat)
    ensures n <= |bs|
  {
    if [LF, LF] <= bs then 2 else if [CR, LF, CR, LF] <= bs then 4 else 0
  }

  /** Where the first frame ends, its separator included; 0 while no separator has arrived. */
  function FrameEnd(bs: seq<Byte>): (n: nat)
    ensures n <= |bs|
  {
    if bs == [] then 0
    else if Separator(bs) > 0 then Separator(bs)
    else
      var n := FrameEnd(bs[1..]);
      if n == 0 then 0 else n + 1
  }

  /** The first frame ends with the earliest separator, and nothing before it holds one. */
  lemma {:induction false} FrameEndIsFirst(bs: seq<Byte>)
    ensures FrameEnd(bs) == 0 ==> forall k | 0 <= k <= |bs| :: Separator(bs[k..]) == 0
    ensures FrameEnd(bs) > 0 ==> exists i :: EndsAt(bs, i)
  {
    hide EndsAt;
    assert bs[0..] == bs;
    if bs != [] {
      if Separator(bs) > 0 {
        EndsAtOnce(bs);
      } else {
        FrameEndIsFirst(bs[1..]);
        if FrameEnd(bs) > 0 {
          var j :| EndsAt(bs[1..], j);
          EndsLater(bs, j);
        } else {
          forall k | 0 < k <= |bs| ensures Separator(bs[k..]) == 0 {
            assert bs[k..] == bs[1..][k - 1..];
          }
        }
      }
    }
  }

  /** The separator that ends the first frame stands at `i`, and none stands before it. */
  predicate EndsAt(bs: seq<Byte>, i: nat) {
    && i < |bs| && Separator(bs[i..]) > 0 && FrameEnd(bs) == i + Separator(bs[i..])
    && forall k | 0 <= k < i :: Separator(bs[k..]) == 0
  }

  lemma EndsAtOnce(bs: seq<Byte>)
    requires Separator(bs) > 0
    ensures EndsAt(bs, 0)
  {
    assert bs[0..] == bs;
  }

  lemma EndsLater(bs: seq<Byte>, j: nat)
    requires bs != [] && Separator(bs) == 0 && EndsAt(bs[1..], j)
    ensures EndsAt(bs, j + 1)
  {
    hide Separator;
    assert bs[0..] == bs && bs[1..][j..] == bs[j + 1..];
    forall k | 0 < k < j + 1 ensures Separator(bs[k..]) == 0 {
      assert bs[k..] == bs[1..][k - 1..];
    }
  }

  lemma SeparatorExtends(a: seq<Byte>, b: seq<Byte>)
    requires FrameEnd(a) > 0
    ensures Separator(a + b) == Separator(a)
  {
    if |a| < 2 {
      NoFrameInOne(a);
    } else if |a| < 4 && [CR, LF, CR, LF] <= a + b {
      assert forall k | 0 <= k < |a| :: a[k] == (a + b)[k];
      assert a[1..] == if |a| == 2 then [LF] else [LF, CR];
      NoFrameInOne([LF]);
      NoFrameInOne([CR]);
      assert [LF, CR][1..] == [CR];
    }
  }

  lemma NoFrameInOne(a: seq<Byte>)
    requires |a| < 2
    ensures FrameEnd(a) == 0
  {
    if a != [] {
      assert a[1..] == [];
    }
  }

  /** A frame that has ended stays as it is, whatever arrives later. */
  lemma {:induction false} FrameEndExtends(a: seq<Byte>, b: seq<Byte>)
    requires FrameEnd(a) > 0
    ensures FrameEnd(a + b) == FrameEnd(a)
  {
    hide Separator;
    SeparatorExtends(a, b);
    if Separator(a) == 0 {
      assert (a + b)[1..] == a[1..] + b;
      FrameEndExtends(a[1..], b);
    }
  }

  /** The complete frames of a body, separators included. */
  function Frames(bs: seq<Byte>): seq<seq<Byte>>
    decreases |bs|
  {
    if FrameEnd(bs) == 0 then [] else [bs[..FrameEnd(bs)]] + Frames(bs[FrameEnd(bs)..])
  }

  /** What follows the last complete frame. */
  function Leftover(bs: seq<Byte>): seq<Byte>
    decreases |bs|
  {
    if FrameEnd(bs) == 0 then bs else Leftover(bs[FrameEnd(bs)..])
  }

  /** Cutting a body loses and invents nothing: the frames of the first part stand, and what is left of
      it is where the frames of the rest begin. */
  lemma {:induction false} FramesJoin(a: seq<Byte>, b: seq<Byte>)
    ensures Frames(a + b) == Frames(a) + Frames(Leftover(a) + b)
    ensures Leftover(a + b) == Leftover(Leftover(a) + b)
    decreases |a|
  {
    hide FrameEnd;
    var n := FrameEnd(a);
    if n > 0 {
      FrameEndExtends(a, b);
      assert (a + b)[..n] == a[..n] && (a + b)[n..] == a[n..] + b;
      FramesJoin(a[n..], b);
    }
  }

  /** The frames and the leftover are the body, and the leftover holds no separator. */
  lemma {:induction false} FramesConserve(bs: seq<Byte>)
    ensures Concat(Frames(bs)) + Leftover(bs) == bs
    ensures FrameEnd(Leftover(bs)) == 0
    decreases |bs|
  {
    hide FrameEnd;
    var n := FrameEnd(bs);
    if n > 0 {
      FramesConserve(bs[n..]);
      assert Frames(bs)[1..] == Frames(bs[n..]);
      assert bs == bs[..n] + bs[n..];
    }
  }

  // ---------------------------------------------------------------------------------------------
  // The lines of a frame
  // ---------------------------------------------------------------------------------------------

  /** A line as `str::lines` gives it: without its `\n`, or without its `\r\n`. */
  function Bare(line: string): string {
    if line == "" || line[|line| - 1] != '\n' then line
    else
      var body := line[..|line| - 1];
      if body != "" && body[|body| - 1] == '\r' then body[..|body| - 1] else body
  }

  function TextLines(text: string): seq<string>
    decreases |text|
  {
    if text == "" then [] else [Bare(text[..LineEnd(text)])] + TextLines(text[LineEnd(text)..])
  }

  const EVENT := "event:"
  const DATA := "data:"

  /** What a frame's lines say: the last `event:` name, if events are read, and every `data:` payload. */
  datatype Fields = Fields(event: Option<string>, data: seq<string>)

  function Payload(line: string): string
    requires DATA <= line
  {
    var rest := line[|DATA|..];
    if " " <= rest then rest[1..] else rest
  }

  function FieldsOf(events: bool, lines: seq<string>): Fields {
    if lines == [] then Fields(None, [])
    else
      var before, line := FieldsOf(events, lines[..|lines| - 1]), lines[|lines| - 1];
      if events && EVENT <= line then before.(event := Some(Ndjson.Trim(line[|EVENT|..])))
      else if DATA <= line then before.(data := before.data + [Payload(line)])
      else before
  }

  /** The line loop of `try_pop_frame`. */
  method ReadLines(events: bool, text: string) returns (event: Option<string>, data: seq<string>)
    ensures Fields(event, data) == FieldsOf(events, TextLines(text))
  {
    event, data := None, [];
    var lines := TextLines(text);
    for k := 0 to |lines|
      invariant Fields(event, data) == FieldsOf(events, lines[..k])
    {
      assert lines[..k + 1][..k] == lines[..k];
      var line := lines[k];
      if events && EVENT <= line {
        event := Some(Ndjson.Trim(line[|EVENT|..]));
      } else if DATA <= line {
        data := data + [Payload(line)];
      }
    }
    assert lines[..|lines|] == lines;
  }

  // ---------------------------------------------------------------------------------------------
  // What a body says
  // ---------------------------------------------------------------------------------------------

  predicate Stray(f: Fields) {
    f.data == [] && f.event.None?
  }

  ghost predicate AllValid(bs: seq<Byte>) {
    forall f <- Frames(bs) :: Decode(f).Some?
  }

  function FrameFields(events: bool, frame: seq<Byte>): Fields
    requires Decode(frame).Some?
  {
    FieldsOf(events, TextLines(Decode(frame).value))
  }

  /** The fields of the complete frames in order, stray separators aside. */
  function Said(events: bool, frames: seq<seq<Byte>>): seq<Fields>
    requires forall f <- frames :: Decode(f).Some?
  {
    if frames == [] then []
    else
      var first := FrameFields(events, frames[0]);
      (if Stray(first) then [] else [first]) + Said(events, frames[1..])
  }

  lemma FirstFrame(events: bool, buf: seq<Byte>, ahead: seq<Byte>)
    requires FrameEnd(buf) > 0 && AllValid(buf + ahead)
    ensures var n := FrameEnd(buf);
            && Decode(buf[..n]).Some?
            && AllValid(buf[n..] + ahead)
            && Leftover(buf + ahead) == Leftover(buf[n..] + ahead)
            && Said(events, Frames(buf + ahead))
            == (if Stray(FrameFields(events, buf[..n])) then [] else [FrameFields(events, buf[..n])])
               + Said(events, Frames(buf[n..] + ahead))
  {
    hide FrameEnd, FrameFields, Stray, Decode;
    var n, bs := FrameEnd(buf), buf + ahead;
    FrameEndExtends(buf, ahead);
    assert bs[..n] == buf[..n] && bs[n..] == buf[n..] + ahead;
    assert Frames(bs)[0] == buf[..n];
    assert Frames(bs)[1..] == Frames(bs[n..]);
    forall f <- Frames(bs[n..]) ensures Decode(f).Some? {
      assert f in Frames(bs);
    }
  }

  // ---------------------------------------------------------------------------------------------
  // The decoder
  // ---------------------------------------------------------------------------------------------

  /** The buffer of a decoder and the network behind it. */
  class SseBuffer {
    const events: bool
    var inner: seq<seq<Byte>>
    var buf: seq<Byte>

    constructor (events: bool, chunks: seq<seq<Byte>>)
      ensures this.events == events && buf == [] && Ahead() == Concat(chunks)
    {
      this.events := events;
      inner := chunks;
      buf := [];
      new;
      assert [] + Concat(chunks) == Concat(chunks);
    }

    /** The bytes not yet handed on, however they will arrive. */
    ghost function Ahead(): seq<Byte>
      reads `buf, `inner
    {
      buf + Concat(inner)
    }

    ghost predicate ValidAhead()
      reads `buf, `inner
    {
      AllValid(Ahead())
    }

    ghost function SaidAhead(): seq<Fields>
      reads `buf, `inner
      requires ValidAhead()
    {
      Said(events, Frames(Ahead()))
    }

    /** The separator search over the buffer. */
    method FindEnd() returns (end: nat)
      ensures end == FrameEnd(buf)
    {
      hide FrameEnd;
      end := 0;
      var i := 0;
      while i + 1 < |buf|
        invariant i <= |buf|
        invariant FrameEnd(buf) == if FrameEnd(buf[i..]) == 0 then 0 else i + FrameEnd(buf[i..])
      {
        ScanStep(buf, i);
        if buf[i] == LF && buf[i + 1] == LF {
          return i + 2;
        }
        if i + 3 < |buf| && buf[i] == CR && buf[i + 1] == LF && buf[i + 2] == CR && buf[i + 3] == LF {
          return i + 4;
        }
        i := i + 1;
      }
      NoFrameInOne(buf[i..]);
    }

    /** Pops the first frame that is not stray.  `None` with valid frames ahead means that the buffer holds
        no complete frame. */
    method TryPopFields() returns (f: Option<Fields>)
      modifies `buf
      ensures |buf| <= old(|buf|)
      ensures f.Some? ==> |buf| < old(|buf|)
      ensures old(ValidAhead()) ==>
        && ValidAhead()
        && Leftover(Ahead()) == old(Leftover(Ahead()))
        && (f.None? ==> FrameEnd(buf) == 0)
        && old(SaidAhead()) == (if f.Some? then [f.value] else []) + SaidAhead()
      decreases |buf|
    {
      hide FrameEnd, Frames, Leftover, Decode;
      var end := FindEnd();
      if end == 0 {
        return None;
      }
      var frame := buf[..end];
      ghost var before, rest := buf, Concat(inner);
      ghost var valid := AllValid(before + rest);
      if valid {
        FirstFrame(events, before, rest);
      }
      buf := buf[end..];
      var text := Decode(frame);
      if text.None? {
        assert !valid;
        return None;
      }
      var event, data := ReadLines(events, text.value);
      assert valid ==> FrameFields(events, frame) == Fields(event, data);
      if data == [] && event.None? {
        f := TryPopFields();
        return;
      }
      return Some(Fields(event, data));
    }

    /** The next frame of the Anthropic and Gemini decoders; at the end of the body an unfinished frame
        is dropped. */
    method Next() returns (f: Option<Fields>)
      modifies `buf, `inner
      ensures f.Some? ==> |Ahead()| < old(|Ahead()|)
      ensures old(ValidAhead()) ==>
        && ValidAhead()
        && old(SaidAhead()) == (if f.Some? then [f.value] else []) + SaidAhead()
        && (f.None? ==> SaidAhead() == [])
    {
      hide FrameEnd, Leftover, Decode;
      ghost var valid := ValidAhead();
      ghost var said := if valid then SaidAhead() else [];
      while true
        invariant |Ahead()| <= old(|Ahead()|)
        invariant valid ==> ValidAhead() && SaidAhead() == said
        decreases |inner|
      {
        f := TryPopFields();
        if f.Some? {
          return;
        }
        if inner == [] {
          assert buf + [] == buf;
          f := TryPopFields();
          assert buf + [] == buf;
          return;
        }
        assert (buf + inner[0]) + Concat(inner[1..]) == Ahead();
        buf, inner := buf + inner[0], inner[1..];
      }
    }
  }

  lemma ScanStep(bs: seq<Byte>, i: nat)
    requires i + 1 < |bs|
    ensures bs[i] == LF && bs[i + 1] == LF ==> FrameEnd(bs[i..]) == 2
    ensures i + 3 < |bs| && bs[i] == CR && bs[i + 1] == LF && bs[i + 2] == CR && bs[i + 3] == LF ==>
      FrameEnd(bs[i..]) == 4
    ensures !(bs[i] == LF && bs[i + 1] == LF) ==>
      !(i + 3 < |bs| && bs[i] == CR && bs[i + 1] == LF && bs[i + 2] == CR && bs[i + 3] == LF) ==>
      FrameEnd(bs[i..]) == if FrameEnd(bs[i + 1..]) == 0 then 0 else 1 + FrameEnd(bs[i + 1..])
  {
    assert bs[i..][1..] == bs[i + 1..];
  }

  /** For every cut of every body whose complete frames are valid UTF-8, the frames handed on are the
      frames of the body. */
  method ReadAll(events: bool, chunks: seq<seq<Byte>>) returns (said: seq<Fields>)
    ensures AllValid(Concat(chunks)) ==> said == Said(events, Frames(Concat(chunks)))
  {
    hide Frames, Leftover, FrameEnd, Decode, Said, Concat;
    var sse := new SseBuffer(events, chunks);
    said := [];
    ghost var valid := sse.ValidAhead();
    ghost var all := if valid then sse.SaidAhead() else [];
    assert AllValid(Concat(chunks)) ==> valid && all == Said(events, Frames(Concat(chunks)));
    assert valid ==> all == said + all;
    hide AllValid, SseBuffer.ValidAhead, SseBuffer.SaidAhead;
    while true
      invariant fresh(sse) && sse.events == events
      invariant valid ==> sse.ValidAhead() && all == said + sse.SaidAhead()
      decreases |sse.Ahead()|
      modifies sse
    {
      var f := sse.Next();
      if f.None? {
        return;
      }
      if valid {
        Regroup(said, f.value, sse.SaidAhead());
      }
      said := said + [f.value];
    }
  }

  lemma Regroup(said: seq<Fields>, f: Fields, rest: seq<Fields>)
    ensures said + ([f] + rest) == (said + [f]) + rest
  {
  }
}
