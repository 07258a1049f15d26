/** A canvas between two stretches of text comes out as html, its fence lines vanish, and the text around it stays text
    (crates/savvagent-fence/src/lib.rs). */
module Canvas {
  import opened Base
  import opened Fence
  import Arrivals

  /** Whole lines without a backtick. */
  predicate Unmarked(t: string) {
    '`' !in t && (t == "" || t[|t| - 1] == '\n')
  }

  /** One line: the marker, white space in front of it, and nothing but line-end characters behind it. */
  ghost predicate FenceLine(line: string, inside: bool) {
    && line != "" && line[|line| - 1] == '\n' && '\n' !in line[..|line| - 1]
    && exists blanks, ends :: Framed(line, blanks, inside, ends)
  }

  lemma {:induction false} UnmarkedFirst(t: string, rest: string, inside: bool)
    requires Unmarked(t)
    ensures LineParse(t + rest, inside) == After(Tag(inside, t), LineParse(rest, inside))
    decreases |t|
  {
    hide IsMarker, LineParse;
    if t == "" {
      assert t + rest == rest;
      assert Tag(inside, "") + LineParse(rest, inside).out == LineParse(rest, inside).out;
    } else {
      var n := LineEnd(t);
      var line, more := t[..n], t[n..];
      assert t[n - 1] == '\n';
      assert (t + rest)[..n] == line && (t + rest)[n..] == more + rest;
      OneLine(line, more + rest, inside);
      assert t + rest == line + (more + rest);
      Arrivals.MarkerHasBacktick(line, inside);
      UnmarkedFirst(more, rest, inside);
      assert t == line + more;
      TagConcat(inside, line, more);
      assert Tag(inside, line) + (Tag(inside, more) + LineParse(rest, inside).out)
          == Tag(inside, line) + Tag(inside, more) + LineParse(rest, inside).out;
    }
  }

  lemma OneLine(line: string, rest: string, inside: bool)
    requires line != "" && line[|line| - 1] == '\n' && '\n' !in line[..|line| - 1]
    ensures LineParse(line + rest, inside)
         == After(Line(line, inside).out, LineParse(rest, Line(line, inside).unclosed))
  {
    hide IsMarker;
    var text := line + rest;
    assert text[..|line| - 1] == line[..|line| - 1] && text[..|line|] == line && text[|line|..] == rest;
    LineEndUnique(text, |line|);
  }

  lemma FenceLineToggles(line: string, rest: string, inside: bool)
    requires FenceLine(line, inside)
    ensures LineParse(line + rest, inside) == LineParse(rest, !inside)
  {
    hide IsMarker, LineParse;
    MarkerLines(line, inside);
    OneLine(line, rest, inside);
    assert [] + LineParse(rest, !inside).out == LineParse(rest, !inside).out;
  }

  lemma {:induction false} OnlyText(t: string, inside: bool)
    requires '`' !in t
    ensures LineParse(t, inside) == Parse(Tag(inside, t), inside)
    decreases |t|
  {
    hide IsMarker;
    if t != "" {
      var n := LineEnd(t);
      Arrivals.MarkerHasBacktick(t[..n], inside);
      OnlyText(t[n..], inside);
      TagConcat(inside, t[..n], t[n..]);
      assert t == t[..n] + t[n..];
    }
  }

  lemma CanvasComesOut(before: string, opener: string, body: string, closer: string, after: string)
    requires Unmarked(before) && FenceLine(opener, false) && Unmarked(body) && FenceLine(closer, true) && '`' !in after
    ensures LineParse(before + (opener + (body + (closer + after))), false)
         == Parse(Tag(false, before) + Tag(true, body) + Tag(false, after), false)
  {
    hide *;
    OnlyText(after, false);
    FenceLineToggles(closer, after, true);
    UnmarkedFirst(body, closer + after, true);
    FenceLineToggles(opener, body + (closer + after), false);
    UnmarkedFirst(before, opener + (body + (closer + after)), false);
    Outputs(Tag(false, before), Tag(true, body), Tag(false, after));
  }

  lemma Outputs(a: seq<Sym>, b: seq<Sym>, c: seq<Sym>)
    ensures After(a, After(b, Parse(c, false))) == Parse(a + b + c, false)
  {
    assert a + (b + c) == a + b + c;
  }
}
