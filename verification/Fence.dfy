/** The fence parser: a push-based transducer that cuts streamed text into Text and Html chunks
    (crates/savvagent-fence/src/lib.rs).

    Output is described by tagged symbols: one `Sym` per emitted character, carrying the kind of
    the chunk it was emitted in.  A chunk list is determined by its symbols as soon as no chunk is
    empty and no two neighbours share a kind (`RunsUnique`), so equality of symbol sequences is
    equality of outputs "after joining adjacent chunks of the same kind". */
module Fence {
  import opened Base

  datatype FenceChunk = Text(payload: string) | Html(payload: string)

  datatype Sym = Sym(html: bool, c: char)

  const OPENER := "```html-canvas"
  const CLOSER := "```"

  function Marker(inside: bool): string {
    if inside then CLOSER else OPENER
  }

  // ---------------------------------------------------------------------------------------------
  // Character classes and trimming
  // ---------------------------------------------------------------------------------------------

  /** PropList.txt of the Unicode Character Database, property White_Space. */
  const WHITE_SPACE := {
    0x0009, 0x000A, 0x000B, 0x000C, 0x000D, 0x0020, 0x0085, 0x00A0, 0x1680, 0x2000, 0x2001, 0x2002, 0x2003,
    0x2004, 0x2005, 0x2006, 0x2007, 0x2008, 0x2009, 0x200A, 0x2028, 0x2029, 0x202F, 0x205F, 0x3000}

  /** The characters with the Unicode White_Space property: what `trim_start` removes. */
  predicate IsWhitespace(c: char)
    ensures IsWhitespace(c) <==> c as int in WHITE_SPACE
  {
    var n := c as int;
    || 0x09 <= n <= 0x0D || n == 0x20 || n == 0x85 || n == 0xA0 || n == 0x1680
    || 0x2000 <= n <= 0x200A || n == 0x2028 || n == 0x2029 || n == 0x202F || n == 0x205F || n == 0x3000
  }

  function TrimStart(s: string): string {
    if s != "" && IsWhitespace(s[0]) then TrimStart(s[1..]) else s
  }

  function TrimLineEnd(s: string): string {
    if s != "" && s[|s| - 1] in {'\n', '\r'} then TrimLineEnd(s[..|s| - 1]) else s
  }

  /** Is this line a fence marker for the given mode? */
  predicate IsMarker(line: string, inside: bool) {
    TrimStart(TrimLineEnd(line)) == Marker(inside)
  }

  /** A marker with white space before it and line ends behind it. */
  predicate Framed(line: string, blanks: string, inside: bool, ends: string) {
    && line == blanks + (if inside then "```" else "```html-canvas") + ends
    && (forall c <- blanks :: IsWhitespace(c)) && (forall c <- ends :: c in {'\n', '\r'})
  }

  /** Which lines are markers: the opener outside and the closer inside, behind any white space and before any
      number of line ends. */
  lemma MarkerLines(line: string, inside: bool)
    ensures IsMarker(line, inside) <==> exists blanks, ends :: Framed(line, blanks, inside, ends)
  {
    hide IsWhitespace;
    MarkerText(inside);
    if IsMarker(line, inside) {
      var ends := LineEndSplit(line);
      var blanks := StartSplit(TrimLineEnd(line));
      assert Framed(line, blanks, inside, ends);
    }
    forall blanks, ends | Framed(line, blanks, inside, ends) ensures IsMarker(line, inside) {
      LineEndsGo(blanks + Marker(inside), ends);
      StartGoes(blanks, Marker(inside));
    }
  }

  lemma MarkerText(inside: bool)
    ensures Marker(inside) == if inside then "```" else "```html-canvas"
    ensures var m := Marker(inside);
            m != "" && !IsWhitespace(m[0]) && m[|m| - 1] !in {'\n', '\r'}
  {
    assert OPENER[0] == CLOSER[0] == '`';
    assert OPENER[|OPENER| - 1] == 's' && CLOSER[|CLOSER| - 1] == '`';
  }

  lemma {:induction false} LineEndSplit(s: string) returns (ends: string)
    ensures s == TrimLineEnd(s) + ends && forall c <- ends :: c in {'\n', '\r'}
  {
    ends := "";
    if s != "" && s[|s| - 1] in {'\n', '\r'} {
      var before := LineEndSplit(s[..|s| - 1]);
      ends := before + [s[|s| - 1]];
    }
  }

  lemma {:induction false} StartSplit(s: string) returns (blanks: string)
    ensures s == blanks + TrimStart(s) && forall c <- blanks :: IsWhitespace(c)
  {
    blanks := "";
    if s != "" && IsWhitespace(s[0]) {
      var rest := StartSplit(s[1..]);
      blanks := [s[0]] + rest;
    }
  }

  lemma {:induction false} LineEndsGo(s: string, ends: string)
    requires s != "" && s[|s| - 1] !in {'\n', '\r'} && forall c <- ends :: c in {'\n', '\r'}
    ensures TrimLineEnd(s + ends) == s
    decreases |ends|
  {
    if ends == "" {
      assert s + ends == s;
    } else {
      var n := |ends| - 1;
      assert (s + ends)[..|s| + n] == s + ends[..n] && ends[n] in ends;
      assert forall c <- ends[..n] :: c in ends;
      LineEndsGo(s, ends[..n]);
    }
  }

  lemma {:induction false} StartGoes(blanks: string, s: string)
    requires s != "" && !IsWhitespace(s[0]) && forall c <- blanks :: IsWhitespace(c)
    ensures TrimStart(blanks + s) == s
    decreases |blanks|
  {
    hide IsWhitespace;
    if blanks == "" {
      assert blanks + s == s;
    } else {
      assert (blanks + s)[1..] == blanks[1..] + s && blanks[0] in blanks;
      StartGoes(blanks[1..], s);
    }
  }

  function LeadingBlanks(s: string): (n: nat)
    ensures n <= |s|
    ensures forall k :: 0 <= k < n ==> s[k] in {' ', '\t'}
    ensures n < |s| ==> s[n] !in {' ', '\t'}
  {
    if s != "" && s[0] in {' ', '\t'} then 1 + LeadingBlanks(s[1..]) else 0
  }

  /** May this partial line still grow into the marker of the current mode? */
  predicate Held(tail: string, inside: bool) {
    tail[LeadingBlanks(tail)..] <= Marker(inside)
  }

  lemma {:induction false} BlanksOfPrefix(p: string, s: string)
    requires p <= s
    ensures LeadingBlanks(p) == if LeadingBlanks(s) <= |p| then LeadingBlanks(s) else |p|
  {
    if p != "" && p[0] in {' ', '\t'} {
      BlanksOfPrefix(p[1..], s[1..]);
    }
  }

  /** Holding is closed under prefixes: once a partial line is released, so is every extension. */
  lemma HeldPrefix(p: string, s: string, inside: bool)
    requires p <= s && Held(s, inside)
    ensures Held(p, inside)
  {
    BlanksOfPrefix(p, s);
    var m := LeadingBlanks(s);
    if m <= |p| {
      assert p[m..] <= s[m..];
    }
  }

  /** With more text behind it the tail is the marker behind blanks. */
  predicate Completes(tail: string, more: string, inside: bool) {
    (tail + more)[LeadingBlanks(tail + more)..] == Marker(inside)
  }

  /** What is held is what more text can complete to the marker of the mode, and nothing else is. */
  lemma HeldMayBecomeMarker(tail: string, inside: bool)
    ensures Held(tail, inside) <==> exists more :: Completes(tail, more, inside)
  {
    hide Held, Completes;
    if Held(tail, inside) {
      HeldCompletes(tail, inside);
    }
    forall more | Completes(tail, more, inside) ensures Held(tail, inside) {
      CompletedIsHeld(tail, more, inside);
      HeldPrefix(tail, tail + more, inside);
    }
  }

  lemma CompletedIsHeld(tail: string, more: string, inside: bool)
    requires Completes(tail, more, inside)
    ensures Held(tail + more, inside)
  {
  }

  lemma JoinCompletes(blanks: string, part: string, more: string, marker: string)
    requires part <= marker && more == marker[|part|..]
    ensures (blanks + part) + more == blanks + marker && (blanks + marker)[|blanks|..] == marker
  {
    assert part + more == marker;
    assert (blanks + part) + more == blanks + (part + more);
  }

  lemma HeldCompletes(tail: string, inside: bool)
    requires Held(tail, inside)
    ensures exists more :: Completes(tail, more, inside)
  {
    hide LeadingBlanks;
    var m, marker := LeadingBlanks(tail), Marker(inside);
    assert marker[0] == '`';
    hide Marker;
    var blanks, part := tail[..m], tail[m..];
    var more := marker[|part|..];
    JoinCompletes(blanks, part, more, marker);
    assert blanks + part == tail;
    BlanksThen(blanks, marker);
    assert Completes(tail, more, inside);
  }

  lemma {:induction false} BlanksThen(blanks: string, rest: string)
    requires (forall k | 0 <= k < |blanks| :: blanks[k] in {' ', '\t'}) && rest != "" && rest[0] !in {' ', '\t'}
    ensures LeadingBlanks(blanks + rest) == |blanks|
  {
    if blanks == "" {
      assert blanks + rest == rest;
    } else {
      assert (blanks + rest)[0] == blanks[0];
      assert (blanks + rest)[1..] == blanks[1..] + rest;
      BlanksThen(blanks[1..], rest);
    }
  }

  /** Length of the first line, its newline included. */
  function LineEnd(s: string): (n: nat)
    requires s != ""
    ensures 0 < n <= |s|
    ensures '\n' !in s[..n - 1]
    ensures s[n - 1] == '\n' || (n == |s| && '\n' !in s)
  {
    if s[0] == '\n' || |s| == 1 then 1 else
      var n := 1 + LineEnd(s[1..]);
      assert s[..n - 1] == [s[0]] + s[1..][..n - 2];
      n
  }

  lemma {:induction false} LineEndUnique(s: string, n: nat)
    requires 0 < n <= |s| && '\n' !in s[..n - 1] && (s[n - 1] == '\n' || n == |s|)
    ensures LineEnd(s) == n
  {
    if n > 1 {
      assert s[0] == s[..n - 1][0];
      assert s[1..][..n - 2] == s[..n - 1][1..];
      LineEndUnique(s[1..], n - 1);
    }
  }

  /** The line without its newline. */
  function Body(line: string): string {
    if line != "" && line[|line| - 1] == '\n' then line[..|line| - 1] else line
  }

  // ---------------------------------------------------------------------------------------------
  // Specification of push and finish on symbols
  // ---------------------------------------------------------------------------------------------

  function Tag(html: bool, s: string): (t: seq<Sym>)
    ensures |t| == |s|
  {
    seq(|s|, i requires 0 <= i < |s| => Sym(html, s[i]))
  }

  lemma TagConcat(html: bool, a: string, b: string)
    ensures Tag(html, a + b) == Tag(html, a) + Tag(html, b)
  {
  }

  /** What a run has produced: its symbols and whether it ended inside a fence. */
  datatype Parse = Parse(out: seq<Sym>, unclosed: bool)

  function After(out: seq<Sym>, rest: Parse): Parse {
    Parse(out + rest.out, rest.unclosed)
  }

  /** One complete line: a marker toggles the mode and vanishes, anything else is content. */
  function Line(line: string, inside: bool): Parse {
    if IsMarker(line, inside) then Parse([], !inside) else Parse(Tag(inside, line), inside)
  }

  datatype Fed = Fed(out: seq<Sym>, buf: string, inside: bool)

  /** All complete lines of the pending text, then the eager flush of the partial one. */
  function Feed(pending: string, inside: bool): Fed
    decreases |pending|
  {
    if '\n' in pending then
      var n := LineEnd(pending);
      var l := Line(pending[..n], inside);
      var f := Feed(pending[n..], l.unclosed);
      Fed(l.out + f.out, f.buf, f.inside)
    else if Held(pending, inside) then Fed([], pending, inside)
    else Fed(Tag(inside, pending), "", inside)
  }

  function EndOfText(buf: string, inside: bool): Parse {
    if buf == "" then Parse([], inside) else Line(buf, inside)
  }

  /** A whole run: every fragment pushed in order, then end of stream. */
  function Run(buf: string, inside: bool, frags: seq<string>): Parse
    decreases |frags|, 0
  {
    if frags == [] then EndOfText(buf, inside) else Resume(buf + frags[0], inside, frags[1..])
  }

  /** A run whose first fragment has already been joined to the carry-over. */
  function Resume(pending: string, inside: bool, frags: seq<string>): Parse
    decreases |frags|, 1
  {
    var f := Feed(pending, inside);
    After(f.out, Run(f.buf, f.inside, frags))
  }

  /** The reference: the whole text, line by line, with no notion of fragments. */
  function LineParse(text: string, inside: bool): Parse
    decreases |text|
  {
    if text == "" then Parse([], inside) else
      var n := LineEnd(text);
      var l := Line(text[..n], inside);
      After(l.out, LineParse(text[n..], l.unclosed))
  }

  /** A held-back carry-over stays put when nothing is added. */
  lemma FeedNothing(buf: string, inside: bool)
    requires Held(buf, inside) && '\n' !in buf
    ensures Feed(buf + "", inside) == Fed([], buf, inside)
  {
    hide Held;
    assert buf + "" == buf;
  }

  // ---------------------------------------------------------------------------------------------
  // Cut independence, exactly
  // ---------------------------------------------------------------------------------------------

  /** A marker line is safe when nothing in it makes the parser let go of it early; a content line
      is safe when no marker can be left over behind a point where the parser lets go. */
  predicate SafeLine(line: string, inside: bool) {
    var body := Body(line);
    if IsMarker(line, inside) then Held(body, inside)
    else forall s :: 0 < s < |body| && LooseMarker(line[s..], inside) ==> Held(line[..s], inside)
  }

  /** Text that is taken for a marker when it is all that is left of a line. */
  predicate LooseMarker(rest: string, inside: bool) {
    IsMarker(rest, inside) && (Body(rest) != rest || Held(rest, inside))
  }

  /** Every line, read in the mode the reference reads it in, is safe. */
  predicate CutSafe(text: string, inside: bool)
    decreases |text|
  {
    text == "" ||
    var n := LineEnd(text);
    SafeLine(text[..n], inside) && CutSafe(text[n..], Line(text[..n], inside).unclosed)
  }

  /** The rest of a line whose beginning has been released: no suffix of it may pass for a marker. */
  predicate RestSafe(text: string, inside: bool) {
    text == "" ||
    var n := LineEnd(text);
    NoLooseMarker(text[..n], inside) && CutSafe(text[n..], inside)
  }

  predicate NoLooseMarker(line: string, inside: bool) {
    forall s :: 0 <= s < |Body(line)| ==> !LooseMarker(line[s..], inside)
  }

  function RestParse(text: string, inside: bool): Parse {
    if text == "" then Parse([], inside) else
      var n := LineEnd(text);
      After(Tag(inside, text[..n]), LineParse(text[n..], inside))
  }

  lemma BareNewlineIsContent(inside: bool)
    ensures !IsMarker("\n", inside) && !IsMarker("", inside)
  {
    assert "\n"[..0] == "";
    assert TrimLineEnd("\n") == "";
  }

  /** Line structure of `p + r` when `p` has no newline. */
  lemma LineEndJoin(p: string, r: string)
    requires '\n' !in p && r != ""
    ensures LineEnd(p + r) == |p| + LineEnd(r)
    ensures (p + r)[..LineEnd(p + r)] == p + r[..LineEnd(r)]
    ensures (p + r)[LineEnd(p + r)..] == r[LineEnd(r)..]
  {
    var n := LineEnd(r);
    assert (p + r)[..|p| + n - 1] == p + r[..n - 1];
    LineEndUnique(p + r, |p| + n);
  }

  lemma LineEndExtend(p: string, r: string)
    requires '\n' in p
    ensures LineEnd(p + r) == LineEnd(p)
    ensures (p + r)[..LineEnd(p)] == p[..LineEnd(p)]
    ensures (p + r)[LineEnd(p)..] == p[LineEnd(p)..] + r
  {
    var n := LineEnd(p);
    assert (p + r)[..n - 1] == p[..n - 1];
    LineEndUnique(p + r, n);
  }

  /** Behind a released beginning `p` of a safe line, nothing passes for a marker. */
  lemma ReleasedLine(p: string, v: string, inside: bool)
    requires '\n' !in p && !Held(p, inside) && v != "" && SafeLine(p + v, inside)
    ensures !IsMarker(p + v, inside)
    ensures NoLooseMarker(v, inside)
  {
    var line := p + v;
    assert Body(line) == p + Body(v);
    if IsMarker(line, inside) {
      HeldPrefix(p, Body(line), inside);
    }
    forall s | 0 <= s < |Body(v)|
      ensures !LooseMarker(v[s..], inside)
    {
      assert line[|p| + s..] == v[s..];
      if LooseMarker(v[s..], inside) {
        HeldPrefix(p, line[..|p| + s], inside);
      }
    }
  }

  lemma SuffixOfRest(p: string, v: string, inside: bool)
    requires '\n' !in p && v != "" && NoLooseMarker(p + v, inside)
    ensures NoLooseMarker(v, inside)
  {
    assert Body(p + v) == p + Body(v);
    forall s | 0 <= s < |Body(v)|
      ensures !LooseMarker(v[s..], inside)
    {
      assert (p + v)[|p| + s..] == v[s..];
    }
  }

  /** The first line of `p + r` is `p` followed by the first line of `r`. */
  lemma FirstLineOfJoin(p: string, r: string, inside: bool)
    requires '\n' !in p && r != ""
    ensures var n := LineEnd(r);
            var l := Line(p + r[..n], inside);
            && LineParse(p + r, inside) == After(l.out, LineParse(r[n..], l.unclosed))
            && (CutSafe(p + r, inside) <==> SafeLine(p + r[..n], inside) && CutSafe(r[n..], l.unclosed))
  {
    hide Line, SafeLine;
    LineEndJoin(p, r);
  }

  lemma AfterTag(html: bool, p: string, v: string, rest: Parse)
    ensures After(Tag(html, p + v), rest) == After(Tag(html, p), After(Tag(html, v), rest))
  {
    TagConcat(html, p, v);
    assert Tag(html, p) + Tag(html, v) + rest.out == Tag(html, p) + (Tag(html, v) + rest.out);
  }

  /** A pending text whose beginning `p` is released now parses as `p` followed by the rest. */
  lemma Release(p: string, r: string, inside: bool)
    requires '\n' !in p && !Held(p, inside) && r != "" && CutSafe(p + r, inside)
    ensures RestSafe(r, inside)
    ensures LineParse(p + r, inside) == After(Tag(inside, p), RestParse(r, inside))
  {
    hide IsMarker, Held, NoLooseMarker, LineParse, CutSafe;
    var n := LineEnd(r);
    FirstLineOfJoin(p, r, inside);
    ReleasedLine(p, r[..n], inside);
    AfterTag(inside, p, r[..n], LineParse(r[n..], inside));
  }

  lemma ReleaseRest(p: string, r: string, inside: bool)
    requires '\n' !in p && r != "" && RestSafe(p + r, inside)
    ensures RestSafe(r, inside)
    ensures RestParse(p + r, inside) == After(Tag(inside, p), RestParse(r, inside))
  {
    hide IsMarker, Held, NoLooseMarker, LineParse, CutSafe;
    var n := LineEnd(r);
    LineEndJoin(p, r);
    SuffixOfRest(p, r[..n], inside);
    AfterTag(inside, p, r[..n], LineParse(r[n..], inside));
  }

  lemma ResumeLine(pending: string, inside: bool, frags: seq<string>)
    requires '\n' in pending
    ensures var n := LineEnd(pending);
            var l := Line(pending[..n], inside);
            Resume(pending, inside, frags) == After(l.out, Resume(pending[n..], l.unclosed, frags))
  {
    hide Line, Run;
    var n := LineEnd(pending);
    var l := Line(pending[..n], inside);
    var f := Feed(pending[n..], l.unclosed);
    assert forall r: seq<Sym> :: (l.out + f.out) + r == l.out + (f.out + r);
  }

  lemma ParseLine(p: string, r: string, inside: bool)
    requires '\n' in p
    ensures var n := LineEnd(p);
            var l := Line(p[..n], inside);
            && LineParse(p + r, inside) == After(l.out, LineParse(p[n..] + r, l.unclosed))
            && (CutSafe(p + r, inside) <==> SafeLine(p[..n], inside) && CutSafe(p[n..] + r, l.unclosed))
  {
    hide Line, SafeLine;
    LineEndExtend(p, r);
  }

  lemma LastLine(p: string, inside: bool)
    requires '\n' !in p
    ensures LineParse(p, inside) == EndOfText(p, inside)
    ensures p != "" ==> LineEnd(p) == |p|
    ensures p != "" && CutSafe(p, inside) ==> SafeLine(p, inside)
  {
    hide Line, SafeLine;
    if p != "" {
      LineEndUnique(p, |p|);
      assert p[..|p|] == p;
      assert p[|p|..] == "";
      assert LineParse("", Line(p, inside).unclosed).out == [];
    }
  }

  lemma ConcatStep(p: string, frags: seq<string>)
    requires frags != []
    ensures p + Concat(frags) == (p + frags[0]) + Concat(frags[1..])
  {
  }

  /** End of input with only a partial line pending. */
  lemma SafeTail(p: string, inside: bool)
    requires '\n' !in p && CutSafe(p, inside)
    ensures Resume(p, inside, []) == LineParse(p, inside)
    ensures !Held(p, inside) ==> LineParse(p, inside) == After(Tag(inside, p), RestParse("", inside))
  {
    hide IsMarker, Held, LineParse, CutSafe;
    LastLine(p, inside);
    if Held(p, inside) {
      assert [] + EndOfText(p, inside).out == EndOfText(p, inside).out;
    } else {
      assert p != "" by { HeldEmpty(inside); }
      assert Tag(inside, p) + [] == Tag(inside, p);
      assert Body(p) == p;
    }
  }

  lemma HeldEmpty(inside: bool)
    ensures Held("", inside)
  {
  }

  lemma ReleaseAny(p: string, r: string, inside: bool)
    requires '\n' !in p && !Held(p, inside) && CutSafe(p + r, inside)
    ensures RestSafe(r, inside)
    ensures LineParse(p + r, inside) == After(Tag(inside, p), RestParse(r, inside))
  {
    if r == "" {
      assert p + r == p;
      SafeTail(p, inside);
    } else {
      Release(p, r, inside);
    }
  }

  lemma ReleaseRestAny(p: string, r: string, inside: bool)
    requires '\n' !in p && RestSafe(p + r, inside)
    ensures RestSafe(r, inside)
    ensures RestParse(p + r, inside) == After(Tag(inside, p), RestParse(r, inside))
  {
    if r == "" {
      hide Tag, CutSafe;
      assert p + r == p;
      if p != "" {
        LineEndUnique(p, |p|);
        assert p[..|p|] == p && p[|p|..] == "";
      }
    } else {
      ReleaseRest(p, r, inside);
    }
  }

  /** A rest with its newline pending: the line is content and the next line starts afresh. */
  lemma RestLine(p: string, r: string, inside: bool)
    requires '\n' in p && RestSafe(p + r, inside)
    ensures var n := LineEnd(p);
            && Line(p[..n], inside) == Parse(Tag(inside, p[..n]), inside)
            && RestParse(p + r, inside) == After(Tag(inside, p[..n]), LineParse(p[n..] + r, inside))
            && CutSafe(p[n..] + r, inside)
  {
    hide IsMarker, Held, LineParse, CutSafe, Tag;
    LineEndExtend(p, r);
    var line := p[..LineEnd(p)];
    if |Body(line)| > 0 {
      assert line[0..] == line;
      assert !LooseMarker(line[0..], inside);
    } else {
      assert line == "\n";
      BareNewlineIsContent(inside);
    }
  }

  lemma RestTail(p: string, inside: bool)
    requires '\n' !in p && RestSafe(p, inside)
    ensures Resume(p, inside, []) == RestParse(p, inside)
  {
    hide IsMarker, Held, LineParse, CutSafe;
    if p == "" {
      HeldEmpty(inside);
    } else {
      LineEndUnique(p, |p|);
      assert p[..|p|] == p && p[|p|..] == "";
      assert LineParse("", inside) == Parse([], inside) by { LastLine("", inside); }
      assert p[0..] == p && Body(p) == p;
      assert Held(p, inside) ==> !IsMarker(p, inside);
    }
  }

  /** On safe text a run agrees with the line-by-line reference, whatever the fragments. */
  lemma {:induction false} SafeRun(p: string, inside: bool, frags: seq<string>)
    requires CutSafe(p + Concat(frags), inside)
    ensures Resume(p, inside, frags) == LineParse(p + Concat(frags), inside)
    decreases |frags|, |p|
  {
    hide Line, SafeLine, LineParse, CutSafe, Held, RestParse, RestSafe;
    if '\n' in p {
      ResumeLine(p, inside, frags);
      ParseLine(p, Concat(frags), inside);
      SafeRun(p[LineEnd(p)..], Line(p[..LineEnd(p)], inside).unclosed, frags);
    } else if frags == [] {
      assert p + Concat(frags) == p;
      SafeTail(p, inside);
    } else if Held(p, inside) {
      ConcatStep(p, frags);
      SafeRun(p + frags[0], inside, frags[1..]);
    } else {
      ReleaseAny(p, Concat(frags), inside);
      ConcatStep("", frags);
      assert "" + Concat(frags) == Concat(frags);
      SafeRest("" + frags[0], inside, frags[1..]);
    }
  }

  lemma {:induction false} SafeRest(p: string, inside: bool, frags: seq<string>)
    requires RestSafe(p + Concat(frags), inside)
    ensures Resume(p, inside, frags) == RestParse(p + Concat(frags), inside)
    decreases |frags|, |p|
  {
    hide Line, SafeLine, LineParse, CutSafe, Held, RestParse, RestSafe;
    if '\n' in p {
      ResumeLine(p, inside, frags);
      RestLine(p, Concat(frags), inside);
      SafeRun(p[LineEnd(p)..], inside, frags);
    } else if frags == [] {
      assert p + Concat(frags) == p;
      RestTail(p, inside);
    } else if Held(p, inside) {
      ConcatStep(p, frags);
      SafeRest(p + frags[0], inside, frags[1..]);
    } else {
      ReleaseRestAny(p, Concat(frags), inside);
      ConcatStep("", frags);
      assert "" + Concat(frags) == Concat(frags);
      SafeRest("" + frags[0], inside, frags[1..]);
    }
  }

  // ---------------------------------------------------------------------------------------------
  // ... and the converse: every unsafe text has a cut that changes the outcome
  // ---------------------------------------------------------------------------------------------

  /** One push of everything can only miss a marker on the last line; then the final mode differs. */
  lemma {:induction false} OneShot(text: string, inside: bool)
    ensures var one, ref := Resume(text, inside, []), LineParse(text, inside);
            && |one.out| >= |ref.out|
            && (one == ref || one.unclosed != ref.unclosed)
    decreases |text|
  {
    hide IsMarker, Held, Line;
    assert text + "" == text;
    if '\n' in text {
      var n := LineEnd(text);
      ResumeLine(text, inside, []);
      ParseLine(text, "", inside);
      assert text[n..] + "" == text[n..];
      OneShot(text[n..], Line(text[..n], inside).unclosed);
    } else {
      LastLine(text, inside);
      OneShotTail(text, inside);
    }
  }

  lemma OneShotTail(text: string, inside: bool)
    requires '\n' !in text
    ensures Held(text, inside) ==> Resume(text, inside, []) == EndOfText(text, inside)
    ensures !Held(text, inside) ==> Resume(text, inside, []) == Parse(Tag(inside, text), inside)
    ensures EndOfText(text, inside) == Parse(Tag(inside, text), inside) || EndOfText(text, inside) == Parse([], !inside)
  {
    hide IsMarker, Held;
    assert Feed(text, inside).inside == inside;
    assert text == "" ==> Tag(inside, text) == [];
  }

  /** The last line is one the eager flush reads as the reference does: it has its newline, or it is still
      held, or it is no marker of its mode. */
  predicate LastLineKept(text: string, inside: bool)
    decreases |text|
  {
    if '\n' in text then LastLineKept(text[LineEnd(text)..], Line(text[..LineEnd(text)], inside).unclosed)
    else Held(text, inside) || !IsMarker(text, inside)
  }

  /** One push of everything is the reference parse exactly when the last line is such a line. */
  lemma {:induction false} OneShotExact(text: string, inside: bool)
    ensures Resume(text, inside, []) == LineParse(text, inside) <==> LastLineKept(text, inside)
    decreases |text|
  {
    hide IsMarker, Held, Resume, LineParse;
    assert text + "" == text;
    if '\n' in text {
      var n := LineEnd(text);
      var l, rest := Line(text[..n], inside), text[n..];
      ResumeLine(text, inside, []);
      FirstLine(text, inside);
      OneShotExact(rest, l.unclosed);
      if Resume(text, inside, []) == LineParse(text, inside) {
        AfterInjective(l.out, Resume(rest, l.unclosed, []), LineParse(rest, l.unclosed));
      }
    } else {
      LastLine(text, inside);
      OneShotTail(text, inside);
      HeldEmpty(inside);
    }
  }

  /** The same for the parser: everything in one fragment, then end of text. */
  lemma WholeTextExact(text: string)
    ensures Run("", false, [text]) == LineParse(text, false) <==> LastLineKept(text, false)
  {
    hide LastLineKept, LineParse, Resume;
    RunIsResume([text]);
    assert [text][1..] == [];
    OneShotExact(text, false);
  }

  /** A line that is a marker of one mode is content in the other. */
  lemma MarkersDiffer(line: string, inside: bool)
    requires IsMarker(line, inside)
    ensures !IsMarker(line, !inside)
    ensures Line(line, inside) == Parse([], !inside)
    ensures Line(line, !inside) == Parse(Tag(!inside, line), !inside)
  {
  }

  /** The first line of `text`, seen by the reference in mode `inside`. */
  lemma FirstLine(text: string, inside: bool)
    requires text != ""
    ensures var n := LineEnd(text);
            var l := Line(text[..n], inside);
            LineParse(text, inside) == After(l.out, LineParse(text[n..], l.unclosed))
  {
    hide Line;
  }

  /** Content released in one mode cannot be made up for by reading on in the other mode. */
  lemma ReleasedDiffers(x: string, text: string, inside: bool)
    requires x != ""
    ensures After(Tag(inside, x), Resume(text, inside, [])) != LineParse(text, !inside)
  {
    hide IsMarker, Held, Feed;
    OneShot(text, inside);
    if text != "" {
      var n := LineEnd(text);
      FirstLine(text, !inside);
      FirstLine(text, inside);
      assert Tag(inside, x)[0].html == inside;
      if IsMarker(text[..n], !inside) {
        MarkersDiffer(text[..n], !inside);
        assert |LineParse(text, inside).out| == n + |LineParse(text[n..], inside).out|;
      } else {
        assert LineParse(text, !inside).out[0].html == !inside;
      }
    } else {
      LastLine("", !inside);
    }
  }

  /** The first line of `text`, seen by a single push of everything. */
  lemma FirstLineOneShot(text: string, inside: bool)
    requires text != ""
    ensures var n := LineEnd(text);
            var one := Resume(text, inside, []);
            || one == After(Line(text[..n], inside).out, Resume(text[n..], Line(text[..n], inside).unclosed, []))
            || one == Parse(Tag(inside, text), inside)
  {
    hide Line, IsMarker, Held;
    if '\n' in text {
      ResumeLine(text, inside, []);
    } else {
      OneShotTail(text, inside);
      LastLine(text, inside);
      assert text[..|text|] == text && text[|text|..] == "";
      EmptyOneShot(Line(text, inside).unclosed);
      assert Line(text, inside).out + [] == Line(text, inside).out;
    }
  }

  lemma EmptyOneShot(inside: bool)
    ensures Resume("", inside, []) == Parse([], inside) == LineParse("", inside)
  {
    HeldEmpty(inside);
  }

  lemma KeptDiffers(x: string, text: string, inside: bool)
    requires x != ""
    ensures After(Tag(inside, x), LineParse(text, inside)) != Resume(text, !inside, [])
  {
    hide IsMarker, Held, Feed;
    assert Tag(inside, x)[0].html == inside;
    if text == "" {
      EmptyOneShot(inside);
      EmptyOneShot(!inside);
    } else {
      var n := LineEnd(text);
      FirstLine(text, inside);
      FirstLineOneShot(text, !inside);
      if Resume(text, !inside, []) == Parse(Tag(!inside, text), !inside) {
        assert Tag(!inside, text)[0].html == !inside;
      } else if IsMarker(text[..n], !inside) {
        MarkersDiffer(text[..n], !inside);
        OneShot(text[n..], inside);
        assert |LineParse(text, inside).out| == n + |LineParse(text[n..], inside).out|;
      } else {
        assert Resume(text, !inside, []).out[0].html == !inside;
      }
    }
  }

  /** A push of exactly `p`, released at once, followed by a push of `rest`. */
  lemma PushReleased(p: string, rest: string, inside: bool)
    requires '\n' !in p && !Held(p, inside)
    ensures Resume(p, inside, [rest]) == After(Tag(inside, p), Resume(rest, inside, []))
  {
    hide Held;
    var xs: seq<string> := [rest];
    assert xs[1..] == [];
    assert "" + rest == rest;
  }

  lemma AfterInjective(out: seq<Sym>, a: Parse, b: Parse)
    requires After(out, a) == After(out, b)
    ensures a == b
  {
    assert a.out == (out + a.out)[|out|..] == (out + b.out)[|out|..] == b.out;
  }

  /** A bare newline left over from a released line is content. */
  lemma LeftoverNewline(line: string, rest: string, inside: bool)
    requires line != "" && line[|line| - 1] == '\n'
    ensures var left := Resume("\n" + rest, inside, []);
            After(Tag(inside, Body(line)), left) == After(Tag(inside, line), Resume(rest, inside, []))
  {
    hide IsMarker, Held, Feed, Resume;
    var x := "\n" + rest;
    LineEndUnique(x, 1);
    assert x[..1] == "\n" && x[1..] == rest;
    BareNewlineIsContent(inside);
    ResumeLine(x, inside, []);
    assert Body(line) + "\n" == line;
    AfterTag(inside, Body(line), "\n", Resume(rest, inside, []));
  }

  /** A marker line the parser lets go of just before its end. */
  lemma EarlyRelease(text: string, inside: bool) returns (frags: seq<string>)
    requires text != "" && IsMarker(text[..LineEnd(text)], inside) && !SafeLine(text[..LineEnd(text)], inside)
    ensures frags != [] && Concat(frags) == text
    ensures Resume(frags[0], inside, frags[1..]) != LineParse(text, inside)
  {
    hide IsMarker, Held, Resume, LineParse, Tag;
    var n := LineEnd(text);
    var line, rest := text[..n], text[n..];
    FirstLine(text, inside);
    MarkersDiffer(line, inside);
    assert After([], LineParse(rest, !inside)) == LineParse(rest, !inside);
    if line[n - 1] == '\n' {
      var x := "\n" + rest;
      frags := [Body(line), x];
      var xs: seq<string> := [x];
      assert frags[1..] == xs && Concat(xs) == x by { assert xs[1..] == []; }
      assert Body(line) + x == line + rest == text;
      assert Body(line) == text[..n - 1];
      PushReleased(Body(line), x, inside);
      LeftoverNewline(line, rest, inside);
      ReleasedDiffers(line, rest, inside);
    } else {
      frags := [text];
      assert text[..n] == text && Body(text) == text;
      assert frags[1..] == [];
      OneShotTail(text, inside);
      LastLine(text, inside);
    }
  }

  /** A leftover that passes for a marker toggles the mode. */
  lemma LeftoverToggles(text: string, inside: bool)
    requires text != "" && LooseMarker(text[..LineEnd(text)], inside)
    ensures Resume(text, inside, []) == Resume(text[LineEnd(text)..], !inside, [])
  {
    hide IsMarker, Held;
    var n := LineEnd(text);
    MarkersDiffer(text[..n], inside);
    if '\n' in text {
      ResumeLine(text, inside, []);
      assert After([], Resume(text[n..], !inside, [])) == Resume(text[n..], !inside, []);
    } else {
      assert text[..n] == text && text[n..] == "" && Body(text) == text;
      OneShotTail(text, inside);
      EmptyOneShot(!inside);
    }
  }

  /** The line structure behind a position inside the first line. */
  lemma SuffixLine(text: string, s: nat)
    requires text != "" && s < |Body(text[..LineEnd(text)])|
    ensures LineEnd(text[s..]) == LineEnd(text) - s
    ensures text[s..][..LineEnd(text) - s] == text[..LineEnd(text)][s..]
    ensures text[s..][LineEnd(text) - s..] == text[LineEnd(text)..]
    ensures '\n' !in text[..s]
  {
    hide LineEnd;
    var n := LineEnd(text);
    assert s < n;
    assert text[s..][..n - s - 1] == text[..n - 1][s..];
    assert text[s..][n - s - 1] == text[n - 1];
    LineEndUnique(text[s..], n - s);
    assert text[s..][..n - s] == text[..n][s..];
    assert text[..s] == text[..n - 1][..s];
  }

  /** A content line of which only a marker is left after a release at `s`. */
  lemma LeftoverMarker(text: string, inside: bool, s: nat) returns (frags: seq<string>)
    requires text != ""
    requires var line := text[..LineEnd(text)];
             && !IsMarker(line, inside) && 0 < s < |Body(line)|
             && LooseMarker(line[s..], inside) && !Held(line[..s], inside)
    ensures frags != [] && Concat(frags) == text
    ensures Resume(frags[0], inside, frags[1..]) != LineParse(text, inside)
  {
    hide IsMarker, Held, Resume, LineParse, Tag, Body, LooseMarker;
    var n := LineEnd(text);
    var line, rest := text[..n], text[n..];
    assert s < n by { assert |Body(line)| <= n by { BodyShorter(line); } }
    FirstLine(text, inside);
    var xs: seq<string> := [text[s..]];
    frags := [text[..s], text[s..]];
    assert frags[1..] == xs && Concat(xs) == text[s..] by { assert xs[1..] == []; }
    assert text[..s] + text[s..] == text;
    assert line[..s] == text[..s];
    SuffixLine(text, s);
    PushReleased(text[..s], text[s..], inside);
    LeftoverToggles(text[s..], inside);
    KeptDiffers(line[s..], rest, inside);
    assert line[..s] + line[s..] == line;
    AfterTag(inside, line[..s], line[s..], LineParse(rest, inside));
    if Resume(frags[0], inside, frags[1..]) == LineParse(text, inside) {
      AfterInjective(Tag(inside, line[..s]), Resume(text[s..], inside, []),
                     After(Tag(inside, line[s..]), LineParse(rest, inside)));
    }
  }

  lemma BodyShorter(line: string)
    ensures |Body(line)| <= |line|
  {
  }

  lemma EmptyPush(inside: bool, tail: seq<string>)
    requires tail != []
    ensures Resume("", inside, tail) == Resume(tail[0], inside, tail[1..])
  {
    HeldEmpty(inside);
    assert Feed("", inside) == Fed([], "", inside);
    assert "" + tail[0] == tail[0];
    assert forall p: Parse :: After([], p) == p;
  }

  lemma {:induction false} BadCut(text: string, inside: bool) returns (frags: seq<string>)
    requires !CutSafe(text, inside)
    ensures frags != [] && Concat(frags) == text
    ensures Resume(frags[0], inside, frags[1..]) != LineParse(text, inside)
    decreases |text|
  {
    hide IsMarker, Held, Feed, Resume, LineParse, Line;
    var n := LineEnd(text);
    var line := text[..n];
    if SafeLine(line, inside) {
      var l := Line(line, inside);
      var tail := BadCut(text[n..], l.unclosed);
      frags := [line] + tail;
      assert frags[1..] == tail && line + text[n..] == text;
      assert line[n - 1] == '\n';
      PushLine(line, inside, tail);
      FirstLine(text, inside);
      if Resume(frags[0], inside, frags[1..]) == LineParse(text, inside) {
        AfterInjective(l.out, Resume(tail[0], l.unclosed, tail[1..]), LineParse(text[n..], l.unclosed));
      }
    } else if IsMarker(line, inside) {
      frags := EarlyRelease(text, inside);
    } else {
      var s :| 0 < s < |Body(line)| && LooseMarker(line[s..], inside) && !Held(line[..s], inside);
      frags := LeftoverMarker(text, inside, s);
    }
  }

  /** A push of exactly one complete line. */
  lemma PushLine(line: string, inside: bool, tail: seq<string>)
    requires '\n' in line && LineEnd(line) == |line| && tail != []
    ensures var l := Line(line, inside);
            Resume(line, inside, tail) == After(l.out, Resume(tail[0], l.unclosed, tail[1..]))
  {
    hide Line, Resume, Held;
    ResumeLine(line, inside, tail);
    assert line[..|line|] == line && line[|line|..] == "";
    EmptyPush(Line(line, inside).unclosed, tail);
  }

  /** Cut independence, exactly: all ways of cutting `text` agree with the line-by-line reference
      if and only if every line of it is safe. */
  lemma CutIndependence(text: string)
    ensures CutSafe(text, false) <==>
            forall frags: seq<string> :: Concat(frags) == text ==> Run("", false, frags) == LineParse(text, false)
  {
    hide Run, LineParse, CutSafe;
    if CutSafe(text, false) {
      forall frags: seq<string> | Concat(frags) == text
        ensures Run("", false, frags) == LineParse(text, false)
      {
        SafeTextAnyCut(frags);
      }
    } else {
      var frags := BadCut(text, false);
      RunIsResume(frags);
      assert Run("", false, frags) != LineParse(text, false);
    }
  }

  lemma RunIsResume(frags: seq<string>)
    requires frags != []
    ensures Run("", false, frags) == Resume(frags[0], false, frags[1..])
  {
    assert "" + frags[0] == frags[0];
  }

  lemma SafeTextAnyCut(frags: seq<string>)
    requires CutSafe(Concat(frags), false)
    ensures Run("", false, frags) == LineParse(Concat(frags), false)
  {
    hide CutSafe;
    if frags != [] {
      RunIsResume(frags);
      SafeRun(frags[0], false, frags[1..]);
    }
  }

  // ---------------------------------------------------------------------------------------------
  // A condition that can be read off the text
  // ---------------------------------------------------------------------------------------------

  /** No carriage return and no white space but space, tab and newline. */
  predicate PlainChars(text: string) {
    forall c <- text :: IsWhitespace(c) ==> c in {' ', '\t', '\n'}
  }

  predicate EndsWith(s: string, t: string) {
    |t| <= |s| && s[|s| - |t|..] == t
  }

  /** No content line ends with the marker of the mode it is read in. */
  predicate NoTrailingMarker(text: string, inside: bool)
    decreases |text|
  {
    text == "" ||
    var n := LineEnd(text);
    && (IsMarker(text[..n], inside) || !EndsWith(Body(text[..n]), Marker(inside)))
    && NoTrailingMarker(text[n..], Line(text[..n], inside).unclosed)
  }

  lemma {:induction false} TrimStartIsSuffix(s: string)
    ensures EndsWith(s, TrimStart(s))
    ensures PlainChars(s) && '\n' !in s ==> TrimStart(s) == s[LeadingBlanks(s)..]
  {
    if s != "" && IsWhitespace(s[0]) {
      TrimStartIsSuffix(s[1..]);
      if PlainChars(s) && '\n' !in s {
        assert s[0] in s;
        assert forall c <- s[1..] :: c in s;
      }
    }
  }

  lemma TrimPlain(line: string)
    requires PlainChars(line) && '\n' !in Body(line)
    ensures TrimLineEnd(line) == Body(line)
    ensures PlainChars(Body(line))
  {
    var body := Body(line);
    assert forall c <- body :: c in line;
    assert IsWhitespace('\r');
    assert body != "" ==> body[|body| - 1] in body;
  }

  /** A suffix of a plain line that passes for a marker makes the whole line end with it. */
  lemma PlainSuffix(line: string, inside: bool, s: nat)
    requires PlainChars(line) && '\n' !in Body(line) && s < |Body(line)|
    ensures IsMarker(line[s..], inside) ==> EndsWith(Body(line), Marker(inside))
  {
    var body, m := Body(line), Marker(inside);
    assert Body(line[s..]) == body[s..];
    PlainTail(line, s);
    hide TrimStart, TrimLineEnd, IsWhitespace, EndsWith, PlainChars, Marker;
    assert '\n' !in body[s..];
    TrimPlain(line[s..]);
    TrimStartIsSuffix(body[s..]);
    TailEnds(body, s, m);
  }

  lemma PlainTail(line: string, s: nat)
    requires PlainChars(line) && s <= |line|
    ensures PlainChars(line[s..])
  {
    hide IsWhitespace;
    assert forall c <- line[s..] :: c in line;
  }

  lemma TailEnds(body: string, s: nat, m: string)
    requires s <= |body|
    ensures EndsWith(body[s..], m) ==> EndsWith(body, m)
  {
    if EndsWith(body[s..], m) {
      assert body[s..][|body[s..]| - |m|..] == body[|body| - |m|..];
    }
  }

  lemma PlainLineIsSafe(line: string, inside: bool)
    requires PlainChars(line) && '\n' !in Body(line)
    requires IsMarker(line, inside) || !EndsWith(Body(line), Marker(inside))
    ensures SafeLine(line, inside)
  {
    if IsMarker(line, inside) {
      TrimPlain(line);
      TrimStartIsSuffix(Body(line));
    } else {
      hide IsMarker, Held, PlainChars, EndsWith;
      forall s | 0 < s < |Body(line)|
        ensures !IsMarker(line[s..], inside)
      {
        PlainSuffix(line, inside, s);
      }
    }
  }

  /** The readable condition is sufficient for cut independence. */
  lemma {:induction false} PlainTextIsSafe(text: string, inside: bool)
    requires PlainChars(text) && NoTrailingMarker(text, inside)
    ensures CutSafe(text, inside)
    decreases |text|
  {
    hide IsMarker, IsWhitespace, EndsWith, SafeLine;
    if text != "" {
      var n := LineEnd(text);
      assert forall c <- text[..n] :: c in text;
      assert forall c <- text[n..] :: c in text;
      assert Body(text[..n]) == if text[n - 1] == '\n' then text[..n - 1] else text;
      PlainLineIsSafe(text[..n], inside);
      PlainTextIsSafe(text[n..], Line(text[..n], inside).unclosed);
    }
  }

  // ---------------------------------------------------------------------------------------------
  // Conservation
  // ---------------------------------------------------------------------------------------------

  /** A stretch of the input: kept in the output as content, or deleted as a fence line. */
  datatype Segment = Kept(html: bool, s: string) | Fenceline(s: string)

  function Source(segs: seq<Segment>): string {
    if segs == [] then "" else segs[0].s + Source(segs[1..])
  }

  function Emitted(segs: seq<Segment>): seq<Sym> {
    if segs == [] then [] else
    (if segs[0].Kept? then Tag(segs[0].html, segs[0].s) else []) + Emitted(segs[1..])
  }

  /** Segments read in order from mode `before` to mode `after`: content carries the current mode,
      a deleted segment is a marker of the current mode and toggles it. */
  predicate Alternates(segs: seq<Segment>, before: bool, after: bool) {
    if segs == [] then before == after
    else if segs[0].Kept? then segs[0].html == before && segs[0].s != "" && Alternates(segs[1..], before, after)
    else IsMarker(segs[0].s, before) && Alternates(segs[1..], !before, after)
  }

  lemma SegmentsJoin(a: seq<Segment>, b: seq<Segment>, i: bool, j: bool, k: bool)
    requires Alternates(a, i, j) && Alternates(b, j, k)
    ensures Alternates(a + b, i, k)
    ensures Source(a + b) == Source(a) + Source(b)
    ensures Emitted(a + b) == Emitted(a) + Emitted(b)
  {
    hide Alternates, Source, Emitted;
    AlternatesJoin(a, b, i, j, k);
    SourceJoin(a, b);
    EmittedJoin(a, b);
  }

  lemma {:induction false} AlternatesJoin(a: seq<Segment>, b: seq<Segment>, i: bool, j: bool, k: bool)
    requires Alternates(a, i, j) && Alternates(b, j, k)
    ensures Alternates(a + b, i, k)
  {
    hide IsMarker;
    if a == [] {
      assert a + b == b;
    } else {
      assert (a + b)[0] == a[0] && (a + b)[1..] == a[1..] + b;
      AlternatesJoin(a[1..], b, if a[0].Kept? then i else !i, j, k);
    }
  }

  lemma {:induction false} SourceJoin(a: seq<Segment>, b: seq<Segment>)
    ensures Source(a + b) == Source(a) + Source(b)
  {
    if a == [] {
      assert a + b == b;
    } else {
      assert (a + b)[0] == a[0] && (a + b)[1..] == a[1..] + b;
      SourceJoin(a[1..], b);
    }
  }

  lemma {:induction false} EmittedJoin(a: seq<Segment>, b: seq<Segment>)
    ensures Emitted(a + b) == Emitted(a) + Emitted(b)
  {
    hide Tag;
    if a == [] {
      assert a + b == b;
    } else {
      assert (a + b)[0] == a[0] && (a + b)[1..] == a[1..] + b;
      EmittedJoin(a[1..], b);
    }
  }

  /** One line is one segment. */
  lemma LineSegment(line: string, inside: bool) returns (segs: seq<Segment>)
    requires line != ""
    ensures Alternates(segs, inside, Line(line, inside).unclosed)
    ensures Source(segs) == line && Emitted(segs) == Line(line, inside).out
  {
    hide IsMarker;
    segs := [if IsMarker(line, inside) then Fenceline(line) else Kept(inside, line)];
    assert segs[1..] == [];
  }

  lemma FeedLine(pending: string, inside: bool)
    requires '\n' in pending
    ensures var n := LineEnd(pending);
            var l := Line(pending[..n], inside);
            var f := Feed(pending[n..], l.unclosed);
            Feed(pending, inside) == Fed(l.out + f.out, f.buf, f.inside)
  {
    hide Line, Held;
  }

  lemma FeedTail(pending: string, inside: bool)
    requires '\n' !in pending
    ensures Feed(pending, inside)
         == if Held(pending, inside) then Fed([], pending, inside) else Fed(Tag(inside, pending), "", inside)
  {
    hide Held;
  }

  lemma {:induction false} FeedConserves(pending: string, inside: bool) returns (segs: seq<Segment>)
    ensures var f := Feed(pending, inside);
            && Alternates(segs, inside, f.inside)
            && Source(segs) + f.buf == pending
            && Emitted(segs) == f.out
            && Held(f.buf, f.inside) && '\n' !in f.buf
    decreases |pending|
  {
    hide Feed, Line, Held, Alternates, Source, Emitted, Tag;
    if '\n' in pending {
      var n := LineEnd(pending);
      FeedLine(pending, inside);
      var first := LineSegment(pending[..n], inside);
      var l := Line(pending[..n], inside);
      var rest := FeedConserves(pending[n..], l.unclosed);
      segs := first + rest;
      SegmentsJoin(first, rest, inside, l.unclosed, Feed(pending[n..], l.unclosed).inside);
      JoinBack(pending, n, Source(rest), Feed(pending[n..], l.unclosed).buf);
    } else {
      FeedTail(pending, inside);
      HeldEmpty(inside);
      if Held(pending, inside) {
        segs := NoSegment(inside);
      } else {
        assert pending != "";
        segs := KeptSegment(inside, pending);
      }
    }
  }

  lemma JoinBack(pending: string, n: nat, middle: string, tail: string)
    requires n <= |pending| && middle + tail == pending[n..]
    ensures (pending[..n] + middle) + tail == pending
  {
    assert (pending[..n] + middle) + tail == pending[..n] + (middle + tail);
  }

  lemma NoSegment(inside: bool) returns (segs: seq<Segment>)
    ensures segs == [] && Alternates(segs, inside, inside) && Source(segs) == "" && Emitted(segs) == []
  {
    segs := [];
  }

  lemma KeptSegment(inside: bool, s: string) returns (segs: seq<Segment>)
    requires s != ""
    ensures Alternates(segs, inside, inside) && Source(segs) == s && Emitted(segs) == Tag(inside, s)
  {
    hide IsMarker, Tag;
    segs := [Kept(inside, s)];
    assert segs[1..] == [];
  }

  /** The parser after pushing all fragments, before end of stream. */
  function PushAll(buf: string, inside: bool, frags: seq<string>): Fed
    decreases |frags|
  {
    if frags == [] then Fed([], buf, inside) else
      var f := Feed(buf + frags[0], inside);
      var rest := PushAll(f.buf, f.inside, frags[1..]);
      Fed(f.out + rest.out, rest.buf, rest.inside)
  }

  /** Nothing is lost, invented or reordered, for any fragments at all: the input is what was
      emitted, plus deleted fence lines that alternate opener and closer, plus a held-back partial
      line that could still become a marker. */
  lemma {:induction false} Conservation(buf: string, inside: bool, frags: seq<string>) returns (segs: seq<Segment>)
    requires Held(buf, inside) && '\n' !in buf
    ensures var f := PushAll(buf, inside, frags);
            && Alternates(segs, inside, f.inside)
            && Source(segs) + f.buf == buf + Concat(frags)
            && Emitted(segs) == f.out
            && Held(f.buf, f.inside) && '\n' !in f.buf
    decreases |frags|
  {
    hide IsMarker, Held, Feed;
    if frags == [] {
      segs := [];
      assert buf + Concat(frags) == buf;
    } else {
      var f := Feed(buf + frags[0], inside);
      var first := FeedConserves(buf + frags[0], inside);
      var rest := Conservation(f.buf, f.inside, frags[1..]);
      segs := first + rest;
      SegmentsJoin(first, rest, inside, f.inside, PushAll(f.buf, f.inside, frags[1..]).inside);
      ConcatStep(buf, frags);
      Regroup(Source(first), f.buf, Source(rest), Concat(frags[1..]), PushAll(f.buf, f.inside, frags[1..]).buf);
    }
  }

  lemma Regroup(a: string, b: string, c: string, d: string, e: string)
    requires c + e == b + d
    ensures (a + c) + e == (a + b) + d
  {
    assert (a + c) + e == a + (c + e) && (a + b) + d == a + (b + d);
  }

  // ---------------------------------------------------------------------------------------------
  // Chunks
  // ---------------------------------------------------------------------------------------------

  function Chunk(html: bool, s: string): FenceChunk {
    if html then Html(s) else Text(s)
  }

  /** Extend the last chunk when it has the right kind, else add a new one. */
  function Append(out: seq<FenceChunk>, html: bool, s: string): seq<FenceChunk> {
    if out != [] && out[|out| - 1].Html? == html
    then out[..|out| - 1] + [Chunk(html, out[|out| - 1].payload + s)]
    else out + [Chunk(html, s)]
  }

  /** The symbols of a chunk list. */
  function Flat(chunks: seq<FenceChunk>): seq<Sym> {
    if chunks == [] then [] else
      var last := chunks[|chunks| - 1];
      Flat(chunks[..|chunks| - 1]) + Tag(last.Html?, last.payload)
  }

  /** No chunk is empty and neighbours differ in kind. */
  predicate Canonical(chunks: seq<FenceChunk>) {
    && (forall k :: 0 <= k < |chunks| ==> chunks[k].payload != "")
    && (forall k :: 0 <= k < |chunks| - 1 ==> chunks[k].Html? != chunks[k + 1].Html?)
  }

  /** The maximal runs of equal kind. */
  function Runs(syms: seq<Sym>): seq<FenceChunk> {
    if syms == [] then [] else
      var last := syms[|syms| - 1];
      Append(Runs(syms[..|syms| - 1]), last.html, [last.c])
  }

  lemma FlatSnoc(out: seq<FenceChunk>, c: FenceChunk)
    ensures Flat(out + [c]) == Flat(out) + Tag(c.Html?, c.payload)
  {
    hide Tag;
    assert (out + [c])[..|out|] == out;
  }

  lemma AppendCanonical(out: seq<FenceChunk>, html: bool, s: string)
    requires Canonical(out) && s != ""
    ensures Canonical(Append(out, html, s)) && Append(out, html, s) != []
  {
  }

  lemma AppendFlat(out: seq<FenceChunk>, html: bool, s: string)
    ensures Flat(Append(out, html, s)) == Flat(out) + Tag(html, s)
  {
    hide Flat, Tag;
    FlatSnoc(out, Chunk(html, s));
    if out != [] && out[|out| - 1].Html? == html {
      var before, p := out[..|out| - 1], out[|out| - 1].payload;
      assert out == before + [Chunk(html, p)];
      FlatSnoc(before, Chunk(html, p));
      FlatSnoc(before, Chunk(html, p + s));
      TagConcat(html, p, s);
      assert Flat(before) + Tag(html, p) + Tag(html, s) == Flat(before) + (Tag(html, p) + Tag(html, s));
    }
  }

  lemma {:induction false} RunsFlat(syms: seq<Sym>)
    ensures Canonical(Runs(syms)) && Flat(Runs(syms)) == syms
  {
    hide Canonical, Flat, Append, Tag;
    if syms == [] {
      CanonicalEmpty();
      FlatOfNothing();
    } else {
      var init, last := syms[..|syms| - 1], syms[|syms| - 1];
      RunsFlat(init);
      AppendFlat(Runs(init), last.html, [last.c]);
      AppendCanonical(Runs(init), last.html, [last.c]);
      TagOne(last.html, last.c);
      assert init + [last] == syms;
    }
  }

  lemma TagOne(html: bool, c: char)
    ensures Tag(html, [c]) == [Sym(html, c)]
  {
  }

  lemma RunsSnoc(syms: seq<Sym>, sym: Sym)
    ensures Runs(syms + [sym]) == Append(Runs(syms), sym.html, [sym.c])
  {
    hide Append;
    assert (syms + [sym])[..|syms|] == syms;
  }

  /** Appending a whole payload is appending its characters one by one. */
  lemma {:induction false} RunsAppend(syms: seq<Sym>, html: bool, s: string)
    requires s != ""
    ensures Runs(syms + Tag(html, s)) == Append(Runs(syms), html, s)
  {
    hide Append, Tag;
    var all := syms + Tag(html, s);
    var init, c := s[..|s| - 1], s[|s| - 1];
    assert s == init + [c];
    TagConcat(html, init, [c]);
    TagOne(html, c);
    assert all == (syms + Tag(html, init)) + [Sym(html, c)];
    RunsSnoc(syms + Tag(html, init), Sym(html, c));
    if init == "" {
      assert syms + Tag(html, init) == syms;
      assert s == [c];
    } else {
      RunsAppend(syms, html, init);
      AppendTwice(Runs(syms), html, init, [c]);
    }
  }

  lemma AppendTwice(out: seq<FenceChunk>, html: bool, a: string, b: string)
    ensures Append(Append(out, html, a), html, b) == Append(out, html, a + b)
  {
    var r := Append(out, html, a);
    assert r[|r| - 1].Html? == html;
    if |r| == |out| {
      assert r[..|r| - 1] == out[..|out| - 1];
      assert out[|out| - 1].payload + a + b == out[|out| - 1].payload + (a + b);
    } else {
      assert r[..|r| - 1] == out;
    }
  }

  /** A list of non-empty chunks with alternating kinds is determined by its symbols. */
  lemma {:induction false} RunsUnique(chunks: seq<FenceChunk>)
    requires Canonical(chunks)
    ensures Runs(Flat(chunks)) == chunks
  {
    hide Flat, Tag;
    if chunks == [] {
      FlatOfNothing();
    } else {
      var init, last := chunks[..|chunks| - 1], chunks[|chunks| - 1];
      RunsUnique(init);
      hide Runs;
      FlatSnoc(init, last);
      RunsAppend(Flat(init), last.Html?, last.payload);
      assert Chunk(last.Html?, last.payload) == last;
      if init != [] {
        assert init[|init| - 1] == chunks[|init| - 1];
      }
      assert init + [last] == chunks;
    }
  }

  // ---------------------------------------------------------------------------------------------
  // The parser
  // ---------------------------------------------------------------------------------------------

  function SplitSafeFlush(tail: string, inside: bool): (r: (string, string))
    ensures r.0 + r.1 == tail
    ensures r.0 == "" <==> Held(tail, inside)
    ensures r.0 != "" ==> r.1 == ""
  {
    hide Held;
    HeldEmpty(inside);
    if Held(tail, inside) then ("", tail) else (tail, "")
  }

  datatype FinishResult = FinishResult(chunks: seq<FenceChunk>, unclosedFence: bool)

  class FenceParser {
    var buf: string
    var insideCanvas: bool

    ghost predicate Valid()
      reads this
    {
      Held(buf, insideCanvas) && '\n' !in buf
    }

    constructor ()
      ensures Valid() && buf == "" && !insideCanvas
    {
      buf := "";
      insideCanvas := false;
      HeldEmpty(false);
    }

    method ConsumeLine(line: string, out: seq<FenceChunk>) returns (out': seq<FenceChunk>)
      requires line != "" && Canonical(out)
      modifies this`insideCanvas
      ensures Canonical(out')
      ensures Parse(Flat(out'), insideCanvas) == After(Flat(out), Line(line, old(insideCanvas)))
    {
      out' := out;
      if IsMarker(line, insideCanvas) {
        insideCanvas := !insideCanvas;
      } else {
        AppendFlat(out, insideCanvas, line);
        AppendCanonical(out, insideCanvas, line);
        out' := Append(out, insideCanvas, line);
      }
    }

    /** Feed a fragment: the symbols emitted, the carry-over and the mode are those of `Feed`;
        the chunks are non-empty and alternate in kind. */
    method Push(fragment: string) returns (out: seq<FenceChunk>)
      requires Valid()
      modifies this
      ensures Valid()
      ensures Canonical(out)
      ensures Fed(Flat(out), buf, insideCanvas) == Feed(old(buf) + fragment, old(insideCanvas))
    {
      hide IsMarker, Held, Tag, Canonical, Line, Feed, LeadingBlanks, Flat, Append;
      out := [];
      assert Flat(out) == [] by { FlatOfNothing(); }
      buf := buf + fragment;
      ghost var all, mode := buf, insideCanvas;
      assert Canonical([]) by { CanonicalEmpty(); }
      while '\n' in buf
        invariant Canonical(out)
        invariant Feed(all, mode).out == Flat(out) + Feed(buf, insideCanvas).out
        invariant Feed(all, mode).buf == Feed(buf, insideCanvas).buf
        invariant Feed(all, mode).inside == Feed(buf, insideCanvas).inside
        decreases |buf|
      {
        var n := LineEnd(buf);
        var line := buf[..n];
        FeedLine(buf, insideCanvas);
        ghost var rest := Feed(buf[n..], Line(line, insideCanvas).unclosed).out;
        assert Flat(out) + (Line(line, insideCanvas).out + rest) == (Flat(out) + Line(line, insideCanvas).out) + rest;
        buf := buf[n..];
        out := ConsumeLine(line, out);
      }
      var tail := buf;
      FeedTail(tail, insideCanvas);
      var (flushable, hold) := SplitSafeFlush(tail, insideCanvas);
      HeldEmpty(insideCanvas);
      if flushable != "" {
        AppendFlat(out, insideCanvas, flushable);
        AppendCanonical(out, insideCanvas, flushable);
        out := Append(out, insideCanvas, flushable);
      }
      buf := hold;
    }

    /** End of stream: the carry-over is consumed as a last line. */
    method Finish() returns (r: FinishResult)
      requires Valid()
      modifies this
      ensures Canonical(r.chunks)
      ensures Parse(Flat(r.chunks), r.unclosedFence) == EndOfText(old(buf), old(insideCanvas))
    {
      var chunks := [];
      if buf != "" {
        var line := buf;
        buf := "";
        chunks := ConsumeLine(line, chunks);
      }
      r := FinishResult(chunks, insideCanvas);
    }
  }

  lemma FlatOfNothing()
    ensures Flat([]) == []
  {
  }

  lemma FlatNothing(chunks: seq<FenceChunk>)
    ensures Flat(chunks) == [] && Canonical(chunks) ==> chunks == []
  {
  }

  lemma CanonicalEmpty()
    ensures Canonical([])
  {
  }

  /** Drive a parser over a whole text cut into fragments.  The chunks, adjacent ones of the same
      kind joined, are the maximal runs of the specification's symbols. */
  method ParseFragments(frags: seq<string>) returns (chunks: seq<FenceChunk>, unclosed: bool)
    ensures Parse(Flat(chunks), unclosed) == Run("", false, frags)
    ensures CutSafe(Concat(frags), false) ==> Runs(Flat(chunks)) == Runs(LineParse(Concat(frags), false).out)
    ensures CutSafe(Concat(frags), false) ==> unclosed == LineParse(Concat(frags), false).unclosed
  {
    hide IsMarker, Held, Tag, Canonical, CutSafe, Feed;
    var p := new FenceParser();
    chunks := [];
    var k := 0;
    while k < |frags|
      invariant 0 <= k <= |frags|
      invariant p.Valid() && fresh(p)
      invariant Run("", false, frags) == After(Flat(chunks), Run(p.buf, p.insideCanvas, frags[k..]))
    {
      ghost var mode, buf := p.insideCanvas, p.buf;
      var out := p.Push(frags[k]);
      FlatJoin(chunks, out);
      assert frags[k..][1..] == frags[k + 1..];
      assert Flat(chunks) + (Flat(out) + Run(p.buf, p.insideCanvas, frags[k + 1..]).out)
        == (Flat(chunks) + Flat(out)) + Run(p.buf, p.insideCanvas, frags[k + 1..]).out;
      chunks := chunks + out;
      k := k + 1;
    }
    var fin := p.Finish();
    FlatJoin(chunks, fin.chunks);
    chunks := chunks + fin.chunks;
    unclosed := fin.unclosedFence;
    if CutSafe(Concat(frags), false) {
      SafeTextAnyCut(frags);
    }
  }

  lemma {:induction false} FlatJoin(a: seq<FenceChunk>, b: seq<FenceChunk>)
    ensures Flat(a + b) == Flat(a) + Flat(b)
  {
    hide Flat, Tag;
    if b == [] {
      assert a + b == a;
      FlatOfNothing();
    } else {
      var init, last := b[..|b| - 1], b[|b| - 1];
      FlatJoin(a, init);
      assert b == init + [last] && a + b == (a + init) + [last];
      FlatSnoc(init, last);
      FlatSnoc(a + init, last);
    }
  }
}
