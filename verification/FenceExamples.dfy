/** Texts on which the fence parser and its reference disagree. */
module FenceExamples {
  import opened Base
  import opened Fence

  lemma CutOpens()
    ensures Run("", false, ["a", OPENER + "\n"]).unclosed
  {
    hide Run, Resume, IsMarker, LineParse;
    var x := OPENER + "\n";
    assert Held("a", false) == false by { assert LeadingBlanks("a") == 0; }
    var two: seq<string>, last: seq<string> := ["a", x], [x];
    RunIsResume(two);
    assert two[1..] == last;
    PushReleased("a", x, false);
    assert x[..|OPENER|] == OPENER && '\n' !in OPENER;
    LineEndUnique(x, |x|);
    assert x[..|x|] == x && x[|x|..] == "";
    assert IsMarker(x, false) by { OpenerIsMarker(); }
    LeftoverToggles(x, false);
    EmptyOneShot(true);
  }

  lemma UncutDoesNotOpen()
    ensures !Run("", false, ["a" + OPENER + "\n"]).unclosed
  {
    hide Run, Resume, IsMarker, LineParse, Held;
    var line := "a" + OPENER + "\n";
    var one: seq<string> := [line];
    RunIsResume(one);
    assert one[1..] == [];
    assert '\n' !in "a" + OPENER && line[..|line| - 1] == "a" + OPENER;
    LineEndUnique(line, |line|);
    assert line[..|line|] == line && line[|line|..] == "";
    assert !IsMarker(line, false) by { NotOpener(); }
    ResumeLine(line, false, []);
    EmptyOneShot(false);
  }

  /** Independence fails in general: a fragment boundary in the middle of a line can open a fence. */
  lemma CutMatters()
    ensures Run("", false, ["a", OPENER + "\n"]) != Run("", false, ["a" + OPENER + "\n"])
  {
    CutOpens();
    UncutDoesNotOpen();
  }

  lemma OpenerIsMarker()
    ensures IsMarker(OPENER + "\n", false)
  {
    var x := OPENER + "\n";
    assert x[..|x| - 1] == OPENER;
    assert OPENER[|OPENER| - 1] == 's';
    assert TrimLineEnd(OPENER) == OPENER;
  }

  lemma NotOpener()
    ensures !IsMarker("a" + OPENER + "\n", false)
  {
    var x := "a" + OPENER + "\n";
    assert x[..|x| - 1] == "a" + OPENER;
    assert ("a" + OPENER)[|OPENER|] == 's';
    assert TrimLineEnd("a" + OPENER) == "a" + OPENER;
    assert ("a" + OPENER)[0] == 'a';
  }

  /** An opener with a carriage return and no newline behind it. */
  const MISSED := OPENER + ['\r']

  /** One push of everything is not the reference parse of this text: the parser releases it, and the reference
      opens a fence. */
  lemma CarriageReturnMisses()
    ensures !LastLineKept(MISSED, false)
    ensures Run("", false, [MISSED]) != LineParse(MISSED, false)
  {
    assert MISSED[|MISSED| - 1] == '\r' && '\n' !in OPENER && MISSED[0] == '`';
    assert MISSED[..|MISSED| - 1] == OPENER && OPENER[|OPENER| - 1] == 's';
    assert TrimLineEnd(OPENER) == OPENER;
    assert IsMarker(MISSED, false);
    assert |MISSED| > |OPENER| && !Held(MISSED, false);
    WholeTextExact(MISSED);
  }
}
