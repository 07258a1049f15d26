/** Frames written by a server come back as they were written. */
module SseRoundTrip {
  import opened Base
  import opened Fence
  import opened Utf8
  import opened Sse
  import Ndjson

  /** The two line endings that a separator may use. */
  predicate IsLineEnding(nl: string) {
    nl == "\n" || nl == "\r\n"
  }

  predicate OneLine(s: string) {
    '\n' !in s && '\r' !in s
  }

  /** A line as a server may write it: the space behind `data:` is optional, and comments, ids and the like may
      stand anywhere. */
  datatype Line = DataLine(payload: string, spaced: bool) | EventLine(name: string) | OtherLine(text: string)

  function Written(line: Line): string {
    match line
    case DataLine(payload, spaced) => "data:" + (if spaced then " " else "") + payload
    case EventLine(name) => "event: " + name
    case OtherLine(text) => text
  }

  predicate Writable(line: Line) {
    && OneLine(Written(line)) && Written(line) != ""
    && match line
       case DataLine(payload, spaced) => spaced || !(" " <= payload)
       case EventLine(name) => Ndjson.Trim(" " + name) == name
       case OtherLine(text) => !("data:" <= text) && !("event:" <= text)
  }

  function Texts(lines: seq<Line>): (r: seq<string>)
    ensures |r| == |lines|
    ensures forall k | 0 <= k < |lines| :: r[k] == Written(lines[k])
  {
    seq(|lines|, k requires 0 <= k < |lines| => Written(lines[k]))
  }

  /** What a frame says: all its data, and its last event name where names are read. */
  function Message(events: bool, lines: seq<Line>): Fields {
    if lines == [] then Fields(None, [])
    else
      var before := Message(events, lines[..|lines| - 1]);
      match lines[|lines| - 1]
      case DataLine(payload, _) => Fields(before.event, before.data + [payload])
      case EventLine(name) => if events then Fields(Some(name), before.data) else before
      case OtherLine(_) => before
  }

  /** What a body says: its frames in order, those that say nothing left out. */
  function Messages(events: bool, frames: seq<seq<Line>>): seq<Fields> {
    if frames == [] then []
    else
      var first := Message(events, frames[0]);
      (if first == Fields(None, []) then [] else [first]) + Messages(events, frames[1..])
  }

  function FrameText(lines: seq<string>, nl: string): string {
    if lines == [] then nl else lines[0] + nl + FrameText(lines[1..], nl)
  }

  function Body(frames: seq<seq<Line>>, nl: string): string {
    if frames == [] then "" else FrameText(Texts(frames[0]), nl) + Body(frames[1..], nl)
  }

  predicate Sendable(frames: seq<seq<Line>>) {
    forall f <- frames :: f != [] && forall l <- f :: Writable(l)
  }

  // ---------------------------------------------------------------------------------------------
  // The frame ends where its text ends
  // ---------------------------------------------------------------------------------------------

  lemma {:induction false} SkipLine(line: seq<Byte>, rest: seq<Byte>)
    requires LF !in line && CR !in line && FrameEnd(rest) > 0
    ensures FrameEnd(line + rest) == |line| + FrameEnd(rest)
  {
    if line == [] {
      assert line + rest == rest;
    } else {
      assert (line + rest)[0] == line[0];
      assert (line + rest)[1..] == line[1..] + rest;
      SkipLine(line[1..], rest);
    }
  }

  lemma SkipLineEnding(nl: string, rest: seq<Byte>)
    requires IsLineEnding(nl) && rest != [] && rest[0] !in {LF, CR} && FrameEnd(rest) > 0
    ensures FrameEnd(Encode(nl) + rest) == |nl| + FrameEnd(rest)
  {
    hide Encode, FrameEnd;
    EncodeLineEnding(nl);
    SkipLineFeed(rest);
    if nl == "\r\n" {
      var bs := [LF] + rest;
      assert Encode(nl) + rest == [CR] + bs;
      assert bs[1] == rest[0];
      SkipCarriageReturn(bs);
    }
  }

  lemma SkipLineFeed(rest: seq<Byte>)
    requires rest != [] && rest[0] !in {LF, CR} && FrameEnd(rest) > 0
    ensures FrameEnd([LF] + rest) == 1 + FrameEnd(rest)
  {
    assert ([LF] + rest)[1..] == rest && ([LF] + rest)[1] == rest[0];
  }

  lemma SkipCarriageReturn(rest: seq<Byte>)
    requires |rest| > 1 && rest[1] != CR && FrameEnd(rest) > 0
    ensures FrameEnd([CR] + rest) == 1 + FrameEnd(rest)
  {
    assert ([CR] + rest)[1..] == rest && ([CR] + rest)[2] == rest[1];
  }

  lemma EncodeLineEnding(nl: string)
    requires IsLineEnding(nl)
    ensures Encode(nl) == if nl == "\n" then [LF] else [CR, LF]
  {
    assert nl == "\r\n" ==> nl[1..] == "\n";
    assert "\n"[1..] == "";
  }

  lemma EndsHere(nl: string, rest: seq<Byte>)
    requires IsLineEnding(nl)
    ensures FrameEnd(Encode(nl) + Encode(nl) + rest) == 2 * |nl|
  {
    hide Encode;
    EncodeLineEnding(nl);
    var bs := Encode(nl) + Encode(nl) + rest;
    assert bs[..2 * |nl|] == Encode(nl) + Encode(nl);
    if nl == "\n" {
      assert [LF, LF] <= bs;
    } else {
      assert |Encode(nl)| == 2 && Encode(nl)[0] == CR && bs[0] == CR;
      assert bs[..4] == [CR, LF, CR, LF];
      assert [CR, LF, CR, LF] <= bs;
    }
  }

  lemma EncodeOneLine(line: string)
    requires OneLine(line) && line != ""
    ensures Encode(line) != [] && LF !in Encode(line) && CR !in Encode(line)
  {
    EncodeHasAscii(line, '\n');
    EncodeHasAscii(line, '\r');
    EncodeCharLength(line[0]);
  }

  lemma {:induction false} FrameEndOfText(lines: seq<string>, nl: string, rest: seq<Byte>)
    requires IsLineEnding(nl) && lines != []
    requires forall l <- lines :: OneLine(l) && l != ""
    ensures FrameEnd(Encode(FrameText(lines, nl)) + rest) == |Encode(FrameText(lines, nl))|
  {
    hide FrameEnd, Encode, OneLine;
    var line, tail := lines[0], FrameText(lines[1..], nl);
    EncodeJoin(line + nl, tail);
    EncodeJoin(line, nl);
    EncodeOneLine(line);
    EncodeLineEnding(nl);
    var l, n, t := Encode(line), Encode(nl), Encode(tail);
    assert Encode(FrameText(lines, nl)) + rest == l + (n + (t + rest));
    if lines[1..] == [] {
      EndsHere(nl, rest);
      assert n + n + rest == n + (t + rest);
    } else {
      FrameEndOfText(lines[1..], nl, rest);
      TextStarts(lines[1..], nl);
      SkipLineEnding(nl, t + rest);
    }
    SkipLine(l, n + (t + rest));
  }

  lemma TextStarts(lines: seq<string>, nl: string)
    requires lines != [] && OneLine(lines[0]) && lines[0] != ""
    ensures var t := Encode(FrameText(lines, nl)); t != [] && t[0] !in {LF, CR}
  {
    hide OneLine;
    EncodeOneLine(lines[0]);
    EncodeJoin(lines[0] + nl, FrameText(lines[1..], nl));
    EncodeJoin(lines[0], nl);
    assert Encode(lines[0])[0] in Encode(lines[0]);
  }

  // ---------------------------------------------------------------------------------------------
  // The lines read are the lines written
  // ---------------------------------------------------------------------------------------------

  lemma {:induction false} LinesComeBack(lines: seq<string>, nl: string)
    requires IsLineEnding(nl)
    requires forall l <- lines :: OneLine(l)
    ensures TextLines(FrameText(lines, nl)) == lines + [""]
  {
    hide TextLines;
    if lines == [] {
      OneMoreLine("", nl, "");
      assert "" + nl + "" == nl;
      assert TextLines("") == [] by {
        NoLines();
      }
    } else {
      OneMoreLine(lines[0], nl, FrameText(lines[1..], nl));
      LinesComeBack(lines[1..], nl);
      assert lines == [lines[0]] + lines[1..];
    }
  }

  lemma NoLines()
    ensures TextLines("") == []
  {
  }

  lemma OneMoreLine(line: string, nl: string, rest: string)
    requires IsLineEnding(nl) && OneLine(line)
    ensures TextLines(line + nl + rest) == [line] + TextLines(rest)
  {
    var text, n := line + nl + rest, |line + nl|;
    assert text[..n] == line + nl && text[n..] == rest && text[n - 1] == '\n';
    assert text[..n - 1] == if nl == "\n" then line else line + "\r";
    LineEndUnique(text, n);
    assert Bare(line + nl) == line by {
      assert (line + nl)[..n - 1] == text[..n - 1];
      assert nl == "\r\n" ==> (line + "\r")[..|line|] == line;
    }
  }

  lemma OneLineSays(events: bool, lines: seq<string>, line: Line)
    requires Writable(line)
    ensures var before := FieldsOf(events, lines);
            FieldsOf(events, lines + [Written(line)])
            == match line
               case DataLine(payload, _) => before.(data := before.data + [payload])
               case EventLine(name) => if events then before.(event := Some(name)) else before
               case OtherLine(_) => before
  {
    hide OneLine;
    var text := Written(line);
    assert (lines + [text])[..|lines|] == lines;
    match line {
      case DataLine(payload, spaced) =>
        assert text[0] == 'd' && EVENT[0] == 'e';
        assert text[|DATA|..] == (if spaced then " " else "") + payload;
      case EventLine(name) =>
        assert text[0] == 'e' && DATA[0] == 'd';
        assert text[|EVENT|..] == " " + name;
      case OtherLine(_) =>
    }
  }

  lemma {:induction false} FieldsComeBack(events: bool, lines: seq<Line>)
    requires forall l <- lines :: Writable(l)
    ensures FieldsOf(events, Texts(lines)) == Message(events, lines)
  {
    hide FieldsOf, Writable;
    if lines == [] {
      NoFields(events);
    } else {
      var n := |lines| - 1;
      FieldsComeBack(events, lines[..n]);
      assert Texts(lines) == Texts(lines[..n]) + [Written(lines[n])];
      assert lines[n] in lines;
      OneLineSays(events, Texts(lines[..n]), lines[n]);
    }
  }

  lemma NoFields(events: bool)
    ensures FieldsOf(events, []) == Fields(None, [])
  {
  }

  /** The empty line at the end of a frame says nothing. */
  lemma LastLineSaysNothing(events: bool, lines: seq<string>)
    ensures FieldsOf(events, lines + [""]) == FieldsOf(events, lines)
  {
    assert (lines + [""])[..|lines|] == lines;
  }

  /** Whatever a server writes in frames, with either line ending, is what the decoder hears: with event names and
      without, with a space behind `data:` and without, whatever other lines stand between. */
  lemma {:induction false} RoundTrip(events: bool, frames: seq<seq<Line>>, nl: string)
    requires IsLineEnding(nl) && Sendable(frames)
    ensures var bs := Encode(Body(frames, nl));
            AllValid(bs) && Said(events, Frames(bs)) == Messages(events, frames) && Leftover(bs) == []
  {
    hide FrameEnd, Encode, Writable, FrameFields, Decode, Message;
    if frames == [] {
      EncodeNothing();
    } else {
      var f := frames[0];
      var text, rest := FrameText(Texts(f), nl), Encode(Body(frames[1..], nl));
      assert f in frames && forall g <- frames[1..] :: g in frames;
      RoundTrip(events, frames[1..], nl);
      EncodeJoin(text, Body(frames[1..], nl));
      OneFrame(events, f, nl, rest);
      var bs, n := Encode(text) + rest, |Encode(text)|;
      assert bs[..n] == Encode(text) && bs[n..] == rest;
      assert Frames(bs) == [Encode(text)] + Frames(rest);
      assert Frames(bs)[1..] == Frames(rest);
      StrayFields(Message(events, f));
    }
  }

  lemma StrayFields(f: Fields)
    ensures Stray(f) <==> f == Fields(None, [])
  {
  }

  lemma EncodeNothing()
    ensures Encode("") == [] && FrameEnd([]) == 0
  {
  }

  lemma OneFrame(events: bool, lines: seq<Line>, nl: string, rest: seq<Byte>)
    requires IsLineEnding(nl) && lines != [] && forall l <- lines :: Writable(l)
    ensures var frame := Encode(FrameText(Texts(lines), nl));
            && FrameEnd(frame + rest) == |frame| > 0
            && Decode(frame).Some? && FrameFields(events, frame) == Message(events, lines)
  {
    hide FrameEnd, Encode, Decode, OneLine, FieldsOf;
    var texts := Texts(lines);
    forall t <- texts ensures OneLine(t) && t != "" {
      var k :| 0 <= k < |texts| && texts[k] == t;
      assert lines[k] in lines;
    }
    FrameEndOfText(texts, nl, rest);
    TextStarts(texts, nl);
    DecodeEncode(FrameText(texts, nl));
    LinesComeBack(texts, nl);
    LastLineSaysNothing(events, texts);
    FieldsComeBack(events, lines);
  }

  /** The same through the decoder: however the network cuts the body, what was written is heard. */
  method Relay(events: bool, ghost frames: seq<seq<Line>>, ghost nl: string, chunks: seq<seq<Byte>>)
    returns (heard: seq<Fields>)
    requires IsLineEnding(nl) && Sendable(frames) && Concat(chunks) == Encode(Body(frames, nl))
    ensures heard == Messages(events, frames)
  {
    RoundTrip(events, frames, nl);
    heard := ReadAll(events, chunks);
  }
}
