/** The newline-delimited JSON decoder of the Ollama provider (crates/provider-local/src/stream.rs).

    The network may cut the body anywhere, inside a multi-byte character too.  What reaches the JSON
    parser is described on the text of the whole body, with no mention of chunks or buffers. */
module Ndjson {
  import opened Base
  import opened Fence
  import opened Utf8

  const NEWLINE: Byte := 0x0A

  function TrimEnd(s: string): string {
    if s != "" && IsWhitespace(s[|s| - 1]) then TrimEnd(s[..|s| - 1]) else s
  }

  function Trim(s: string): string {
    TrimEnd(TrimStart(s))
  }

  /** The line, trimmed, unless that leaves nothing. */
  function Kept(line: string): seq<string> {
    if Trim(line) == "" then [] else [Trim(line)]
  }

  /** The non-empty trimmed lines of a text; the last one may lack its newline. */
  function Lines(text: string): seq<string>
    decreases |text|
  {
    if text == "" then [] else Kept(text[..LineEnd(text)]) + Lines(text[LineEnd(text)..])
  }

  lemma LinesStep(body: string, rest: string)
    requires '\n' !in body
    ensures Lines(body + "\n" + rest) == Kept(body + "\n") + Lines(rest)
  {
    hide Kept;
    var line := body + "\n";
    var text := line + rest;
    assert text[..|body|] == body && text[|body|] == '\n';
    LineEndUnique(text, |line|);
    assert text[..|line|] == line && text[|line|..] == rest;
  }

  /** The lines of a text are those before any newline, then those after it. */
  lemma {:induction false} LinesSplit(a: string, b: string)
    ensures Lines(a + "\n" + b) == Lines(a + "\n") + Lines(b)
    decreases |a|
  {
    hide Lines, Kept;
    if '\n' in a {
      var n := LineEnd(a);
      var body, rest := a[..n - 1], a[n..];
      assert a == body + "\n" + rest;
      LinesStep(body, rest + "\n" + b);
      LinesStep(body, rest + "\n");
      LinesSplit(rest, b);
      assert a + "\n" + b == body + "\n" + (rest + "\n" + b);
      assert a + "\n" == body + "\n" + (rest + "\n");
    } else {
      LinesStep(a, b);
      LinesStep(a, "");
      assert a + "\n" + "" == a + "\n";
      assert Lines("") == [] by {
        LinesOfNothing();
      }
    }
  }

  lemma LinesOfNothing()
    ensures Lines("") == []
  {
  }

  lemma {:induction false} TrimEndKeeps(s: string)
    ensures TrimEnd(s) <= s
    ensures TrimEnd(s) != "" ==> !IsWhitespace(TrimEnd(s)[|TrimEnd(s)| - 1])
    ensures forall k | |TrimEnd(s)| <= k < |s| :: IsWhitespace(s[k])
  {
    if s != "" && IsWhitespace(s[|s| - 1]) {
      TrimEndKeeps(s[..|s| - 1]);
      assert forall k | 0 <= k < |s| - 1 :: s[..|s| - 1][k] == s[k];
    }
  }

  /** What stands between white space and neither starts nor ends with it. */
  predicate Padded(s: string, before: string, t: string, after: string) {
    && s == before + t + after
    && (forall c <- before :: IsWhitespace(c)) && (forall c <- after :: IsWhitespace(c))
    && (t != "" ==> !IsWhitespace(t[0]) && !IsWhitespace(t[|t| - 1]))
  }

  /** A trimmed text is exactly that. */
  lemma TrimExact(s: string, t: string)
    ensures Trim(s) == t <==> exists before, after :: Padded(s, before, t, after)
  {
    hide IsWhitespace, TrimStart, TrimEnd;
    if Trim(s) == t {
      var before := StartSplit(s);
      var after := EndSplit(TrimStart(s));
      TrimEndKeeps(TrimStart(s));
      TrimStartStops(s);
      assert s == before + t + after;
      assert t != "" ==> t[0] == TrimStart(s)[0];
      assert Padded(s, before, t, after);
    }
    forall before, after | Padded(s, before, t, after) ensures Trim(s) == t {
      TrimPadded(before, t, after);
    }
  }

  lemma TrimPadded(before: string, t: string, after: string)
    requires Padded(before + t + after, before, t, after)
    ensures Trim(before + t + after) == t
  {
    hide IsWhitespace;
    assert before + t + after == before + (t + after);
    if t == "" {
      assert t + after == after;
      AllWhite(before + after);
      assert before + (t + after) == (before + after) + "";
    } else {
      assert (t + after)[0] == t[0];
      StartGoes(before, t + after);
      EndGoes(t, after);
    }
  }

  lemma {:induction false} EndSplit(s: string) returns (after: string)
    ensures s == TrimEnd(s) + after && forall c <- after :: IsWhitespace(c)
  {
    hide IsWhitespace;
    after := "";
    if s != "" && IsWhitespace(s[|s| - 1]) {
      var rest := EndSplit(s[..|s| - 1]);
      after := rest + [s[|s| - 1]];
    }
  }

  lemma {:induction false} AllWhite(s: string)
    requires forall c <- s :: IsWhitespace(c)
    ensures TrimStart(s) == ""
  {
    hide IsWhitespace;
    if s != "" {
      assert s[0] in s && forall c <- s[1..] :: c in s;
      AllWhite(s[1..]);
    }
  }

  lemma {:induction false} EndGoes(t: string, after: string)
    requires t != "" && !IsWhitespace(t[|t| - 1]) && forall c <- after :: IsWhitespace(c)
    ensures TrimEnd(t + after) == t
    decreases |after|
  {
    hide IsWhitespace;
    if after == "" {
      assert t + after == t;
    } else {
      var n := |after| - 1;
      assert (t + after)[..|t| + n] == t + after[..n] && after[n] in after;
      assert forall c <- after[..n] :: c in after;
      EndGoes(t, after[..n]);
    }
  }

  /** No line the parser sees is empty, holds a newline at an end, or starts or ends with white space. */
  lemma {:induction false} LinesAreTrimmed(text: string)
    ensures forall l <- Lines(text) :: l != "" && !IsWhitespace(l[0]) && !IsWhitespace(l[|l| - 1])
    decreases |text|
  {
    if text != "" {
      var line := text[..LineEnd(text)];
      TrimEndKeeps(TrimStart(line));
      TrimStartStops(line);
      LinesAreTrimmed(text[LineEnd(text)..]);
    }
  }

  lemma {:induction false} TrimStartStops(s: string)
    ensures TrimStart(s) != "" ==> !IsWhitespace(TrimStart(s)[0])
  {
    if s != "" && IsWhitespace(s[0]) {
      TrimStartStops(s[1..]);
    }
  }

  // ---------------------------------------------------------------------------------------------
  // Lines of bytes and lines of text
  // ---------------------------------------------------------------------------------------------

  /** Where the first line of the bytes ends, its newline included; 0 if there is no newline. */
  function LineBytes(bs: seq<Byte>): (n: nat)
    ensures n <= |bs|
    ensures n == 0 <==> NEWLINE !in bs
    ensures n > 0 ==> bs[n - 1] == NEWLINE && NEWLINE !in bs[..n - 1]
  {
    if bs == [] then 0
    else if bs[0] == NEWLINE then 1
    else
      var n := LineBytes(bs[1..]);
      assert bs == [bs[0]] + bs[1..];
      assert n > 0 ==> bs[..n] == [bs[0]] + bs[1..][..n - 1];
      if n == 0 then 0 else n + 1
  }

  lemma {:induction false} LineBytesAt(bs: seq<Byte>, n: nat)
    requires 0 < n <= |bs| && bs[n - 1] == NEWLINE && NEWLINE !in bs[..n - 1]
    ensures LineBytes(bs) == n
  {
    if n > 1 {
      assert bs[..n - 1][0] == bs[0];
      assert bs[1..][..n - 2] == bs[..n - 1][1..];
      LineBytesAt(bs[1..], n - 1);
    }
  }

  /** Cutting the bytes after their first newline cuts the text after its first newline. */
  lemma FirstLineOf(bs: seq<Byte>)
    requires Decode(bs).Some? && LineBytes(bs) > 0
    ensures Decode(bs[..LineBytes(bs)]).Some? && Decode(bs[LineBytes(bs)..]).Some?
    ensures Lines(Decode(bs).value)
         == Kept(Decode(bs[..LineBytes(bs)]).value) + Lines(Decode(bs[LineBytes(bs)..]).value)
  {
    hide FirstLength, FirstChar, Kept, LineBytes;
    var n := LineBytes(bs);
    var a, nl, rest := bs[..n - 1], [NEWLINE], bs[n..];
    assert bs == a + (nl + rest) && bs[..n] == a + nl;
    DecodeCut(a, nl + rest);
    DecodeAscii(NEWLINE);
    assert (a + nl) + rest == bs;
    DecodeCutAfterNewline(a, rest);
    var line, others := Decode(bs[..n]).value, Decode(rest).value;
    var head := Decode(a).value;
    DecodeJoin(a, nl);
    DecodeJoin(a + nl, rest);
    DecodeHasAscii(a, NEWLINE);
    assert line == head + "\n";
    LinesStep(head, others);
  }

  lemma DecodeCutAfterNewline(a: seq<Byte>, rest: seq<Byte>)
    requires Decode(a + ([NEWLINE] + rest)).Some?
    ensures Decode(a).Some? && Decode(a + [NEWLINE]).Some? && Decode(rest).Some?
  {
    hide FirstChar;
    var tail := [NEWLINE] + rest;
    DecodeCut(a, tail);
    assert FirstLength(tail) == 1 && tail[1..] == rest;
    DecodeAscii(NEWLINE);
    DecodeJoin(a, [NEWLINE]);
  }

  /** Bytes with no newline are at most one line. */
  lemma LastLineOf(bs: seq<Byte>)
    requires Decode(bs).Some? && LineBytes(bs) == 0
    ensures Lines(Decode(bs).value) == Kept(Decode(bs).value)
  {
    hide FirstLength, FirstChar, LineBytes;
    var text := Decode(bs).value;
    DecodeHasAscii(bs, NEWLINE);
    if text != "" {
      LineEndUnique(text, |text|);
      assert text[..|text|] == text && text[|text|..] == "";
    }
  }

  // ---------------------------------------------------------------------------------------------
  // The decoder
  // ---------------------------------------------------------------------------------------------

  /** What a run of the decoder hands on: the parsed lines, up to the first that does not parse. */
  datatype Reading<T> = Reading(items: seq<T>, bad: Option<string>)

  function Parsed<T>(parse: string -> Option<T>, lines: seq<string>): Reading<T> {
    if lines == [] then Reading([], None)
    else if parse(lines[0]).None? then Reading([], Some(lines[0]))
    else
      var rest := Parsed(parse, lines[1..]);
      Reading([parse(lines[0]).value] + rest.items, rest.bad)
  }

  class NdjsonDecoder<T> {
    const parse: string -> Option<T>
    var inner: seq<seq<Byte>>
    var buf: seq<Byte>

    constructor (parse: string -> Option<T>, chunks: seq<seq<Byte>>)
      ensures this.parse == parse && Ahead() == Concat(chunks)
    {
      this.parse := parse;
      inner := chunks;
      buf := [];
      new;
      assert [] + Concat(chunks) == Concat(chunks);
    }

    /** The bytes not yet handed on, however they will arrive. */
    ghost function Ahead(): seq<Byte>
      reads `buf, `inner
    {
      buf + Concat(inner)
    }

    ghost predicate Utf8Ahead()
      reads `buf, `inner
    {
      Decode(Ahead()).Some?
    }

    /** The lines the parser has yet to see. */
    ghost function LinesAhead(): seq<string>
      reads `buf, `inner
      requires Utf8Ahead()
    {
      Lines(Decode(Ahead()).value)
    }

    method PopLine() returns (line: Option<string>)
      modifies `buf
      ensures LineBytes(old(buf)) == 0 ==> line == None && buf == old(buf)
      ensures LineBytes(old(buf)) > 0 ==>
        && buf == old(buf)[LineBytes(old(buf))..]
        && var text := Decode(old(buf)[..LineBytes(old(buf))]);
           line == if text.Some? then Some(Trim(text.value)) else None
    {
      line := None;
      var pos := 0;
      while pos < |buf| && buf[pos] != NEWLINE
        invariant pos <= |buf| && NEWLINE !in buf[..pos]
      {
        pos := pos + 1;
      }
      if pos < |buf| {
        LineBytesAt(buf, pos + 1);
        var lineBytes := buf[..pos + 1];
        buf := buf[pos + 1..];
        var text := Decode(lineBytes);
        if text.Some? {
          line := Some(Trim(text.value));
        }
      } else {
        assert buf[..pos] == buf;
      }
    }

    /** A pop either finds the first line ahead and moves past it, or there is none in the buffer. */
    method PopLineAhead() returns (line: Option<string>)
      modifies `buf
      ensures line.None? ==> |buf| <= old(|buf|)
      ensures line.Some? ==> |buf| < old(|buf|)
      ensures old(Utf8Ahead()) ==>
        && Utf8Ahead()
        && (line.None? ==> buf == old(buf) && LineBytes(buf) == 0)
        && (line.Some? ==>
              old(LinesAhead()) == (if line.value == "" then [] else [line.value]) + LinesAhead())
    {
      hide Lines, FirstLength, FirstChar, Trim, LineBytes, Decode;
      ghost var before, rest := buf, Concat(inner);
      ghost var n := LineBytes(before);
      line := PopLine();
      if n > 0 {
        var bs := before + rest;
        assert bs[..n - 1] == before[..n - 1] && bs[n - 1] == before[n - 1];
        LineBytesAt(bs, n);
        assert bs[..n] == before[..n] && bs[n..] == buf + rest;
        if Decode(bs).Some? {
          FirstLineOf(bs);
        }
      }
    }

    /** The next parsed line, `Ok(None)` at the end, or the line that does not parse. */
    method Next() returns (r: Result<Option<T>, string>)
      modifies `buf, `inner
      ensures r.Ok? && r.value.Some? ==> |Ahead()| < old(|Ahead()|)
      ensures old(Utf8Ahead()) ==>
        && Utf8Ahead()
        && var lines := old(LinesAhead());
           if lines == [] then r == Ok(None)
           else if parse(lines[0]).None? then r == Err(lines[0])
           else r == Ok(Some(parse(lines[0]).value)) && LinesAhead() == lines[1..]
    {
      hide Lines, FirstLength, FirstChar, Trim, LineBytes, Decode;
      ghost var valid := Utf8Ahead();
      ghost var lines := if valid then LinesAhead() else [];
      while true
        invariant |Ahead()| <= old(|Ahead()|)
        invariant valid ==> Utf8Ahead() && LinesAhead() == lines
        decreases |inner|, |buf|
      {
        var line := PopLineAhead();
        if line.Some? {
          if line.value == "" {
            continue;
          }
          var item := parse(line.value);
          return if item.Some? then Ok(item) else Err(line.value);
        }
        if inner == [] {
          r := Drain(lines, valid);
          return;
        }
        assert (buf + inner[0]) + Concat(inner[1..]) == Ahead();
        buf, inner := buf + inner[0], inner[1..];
      }
    }

    /** The stream has ended: what is left in the buffer is one last line. */
    method Drain(ghost lines: seq<string>, ghost valid: bool) returns (r: Result<Option<T>, string>)
      requires inner == []
      requires valid ==> LineBytes(buf) == 0 && Utf8Ahead() && LinesAhead() == lines
      modifies `buf
      ensures r.Ok? && r.value.Some? ==> |Ahead()| < old(|Ahead()|)
      ensures valid ==>
        && Utf8Ahead()
        && if lines == [] then r == Ok(None)
           else if parse(lines[0]).None? then r == Err(lines[0])
           else r == Ok(Some(parse(lines[0]).value)) && LinesAhead() == lines[1..]
    {
      hide FirstLength, FirstChar, Trim, LineBytes;
      assert buf + [] == buf;
      if valid {
        LastLineOf(buf);
      }
      if buf != [] {
        var text := Decode(buf);
        var line := Trim(if text.Some? then text.value else "");
        assert text.None? ==> !valid;
        buf := [];
        assert |Ahead()| == 0;
        if line != "" {
          var item := parse(line);
          return if item.Some? then Ok(item) else Err(line);
        }
      }
      return Ok(None);
    }
  }

  /** For every cut of every valid body, the parser sees the body's lines and nothing else. */
  method ReadAll<T>(parse: string -> Option<T>, chunks: seq<seq<Byte>>) returns (items: seq<T>, bad: Option<string>)
    ensures Decode(Concat(chunks)).Some? ==>
      Reading(items, bad) == Parsed(parse, Lines(Decode(Concat(chunks)).value))
  {
    hide Lines, FirstLength, FirstChar, Decode;
    var decoder := new NdjsonDecoder(parse, chunks);
    items, bad := [], None;
    ghost var valid := decoder.Utf8Ahead();
    ghost var lines := if valid then decoder.LinesAhead() else [];
    while true
      invariant fresh(decoder) && decoder.parse == parse
      invariant valid ==>
        && decoder.Utf8Ahead()
        && var rest := Parsed(parse, decoder.LinesAhead());
           Parsed(parse, lines) == Reading(items + rest.items, rest.bad)
      decreases |decoder.Ahead()|
      modifies decoder
    {
      var r := decoder.Next();
      if r.Err? {
        bad := Some(r.error);
        return;
      }
      if r.value.None? {
        return;
      }
      items := items + [r.value.value];
    }
  }
}
