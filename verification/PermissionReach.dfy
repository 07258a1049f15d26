/** How far a permission rule reaches, in terms of the words of a command line and the names in a path
    (crates/savvagent-host/src/permissions.rs). */
module PermissionReach {
  import opened Base
  import opened Fence
  import Ndjson
  import Schema
  import opened Permissions

  /** A call with this string under this key. */
  predicate Says(args: Value, key: string, s: string) {
    args.Obj? && Schema.Get(args.entries, key) == Some(Str(s))
  }

  lemma SaysArg(args: Value, key: string, s: string)
    ensures StringArg(args, key) == Some(s) <==> Says(args, key, s)
  {
  }

  // ---------------------------------------------------------------------------------------------
  // Words
  // ---------------------------------------------------------------------------------------------

  /** A command line begins with a word: behind white space, and up to white space or the end. */
  predicate Begins(line: string, blanks: string, word: string, rest: string) {
    && line == blanks + word + rest && word != ""
    && (forall c <- blanks :: IsWhitespace(c)) && (forall c <- word :: !IsWhitespace(c))
    && (rest != "" ==> IsWhitespace(rest[0]))
  }

  lemma FirstWordExact(line: string, word: string)
    ensures FirstWord(line) == Some(word) <==> exists blanks, rest :: Begins(line, blanks, word, rest)
    ensures FirstWord(line) == None <==> forall c <- line :: IsWhitespace(c)
  {
    hide IsWhitespace, TrimStart;
    var blanks := StartSplit(line);
    var t := TrimStart(line);
    Ndjson.TrimStartStops(line);
    if t == "" {
      assert blanks + "" == blanks == line;
    } else {
      var n := Until(t, IsWhitespace);
      assert t == t[..n] + t[n..] && line == blanks + t[..n] + t[n..];
      assert t[0] in line;
      assert Begins(line, blanks, t[..n], t[n..]);
    }
    forall blanks', rest | Begins(line, blanks', word, rest) ensures FirstWord(line) == Some(word) {
      WordFound(blanks', word, rest);
      assert line == blanks' + (word + rest);
    }
  }

  lemma WordFound(blanks: string, word: string, rest: string)
    requires Begins(blanks + word + rest, blanks, word, rest)
    ensures FirstWord(blanks + (word + rest)) == Some(word)
  {
    hide IsWhitespace;
    assert (word + rest)[0] == word[0] && word[0] in word;
    StartGoes(blanks, word + rest);
    assert forall k | 0 <= k < |word| :: (word + rest)[k] in word;
    assert rest != "" ==> (word + rest)[|word|] == rest[0];
    assert (word + rest)[..|word|] == word;
  }

  // ---------------------------------------------------------------------------------------------
  // Paths
  // ---------------------------------------------------------------------------------------------

  /** The names between the separators. */
  predicate Pieces(pieces: seq<string>) {
    pieces != [] && forall p <- pieces :: '/' !in p
  }

  /** The names that count: none that are empty, and `.` only at the very front. */
  function Names(pieces: seq<string>, front: bool): seq<string> {
    if pieces == [] then []
    else
      (if pieces[0] == "" || (pieces[0] == "." && !front) then [] else [pieces[0]]) + Names(pieces[1..], false)
  }

  /** A path in full: the root, if it starts with a separator, and the names that count. */
  function Located(pieces: seq<string>): seq<string>
    requires pieces != []
  {
    (if pieces[0] == "" && |pieces| > 1 then ["/"] else []) + Names(pieces, true)
  }

  lemma {:induction false} SegmentsAreNames(pieces: seq<string>, front: bool)
    requires Pieces(pieces)
    ensures Segments(Join(pieces, "/"), front) == Names(pieces, front)
    decreases |pieces|
  {
    var p, first := Join(pieces, "/"), pieces[0];
    assert first in pieces;
    var n := Until(p, c => c == '/');
    if |pieces| == 1 {
      assert p == first && n == |p| && p[..n] == first;
      assert pieces[1..] == [];
    } else {
      var rest := pieces[1..];
      assert p == first + "/" + Join(rest, "/");
      assert p[|first|] == '/';
      assert forall k | 0 <= k < |first| :: p[k] in first;
      assert n == |first| && p[..n] == first && p[n + 1..] == Join(rest, "/");
      assert forall q <- rest :: q in pieces;
      SegmentsAreNames(rest, false);
    }
  }

  /** What a path is compared by. */
  lemma ComponentsExact(pieces: seq<string>)
    requires Pieces(pieces)
    ensures Components(Join(pieces, "/")) == Located(pieces)
  {
    var p, first := Join(pieces, "/"), pieces[0];
    assert first in pieces;
    SegmentsAreNames(pieces, true);
    if first == "" && |pieces| > 1 {
      var rest := pieces[1..];
      assert p == "/" + Join(rest, "/") && p[1..] == Join(rest, "/");
      assert forall q <- rest :: q in pieces;
      SegmentsAreNames(rest, false);
    } else if p != "" {
      assert p[0] == first[0] && first[0] in first;
    }
  }

  /** Every path is a list of names with separators between them. */
  lemma {:induction false} Split(p: string) returns (pieces: seq<string>)
    ensures Pieces(pieces) && Join(pieces, "/") == p
    decreases |p|
  {
    var n := Until(p, c => c == '/');
    assert forall k | 0 <= k < n :: p[k] != '/';
    if n == |p| {
      pieces := [p];
    } else {
      var rest := Split(p[n + 1..]);
      pieces := [p[..n]] + rest;
      assert pieces[1..] == rest;
      assert p == p[..n] + "/" + p[n + 1..];
    }
  }

  /** `/p/x` holds itself and what is in it, however that is written, but neither `/p/xy` nor `p/x`. */
  lemma Neighbours()
    ensures PathStartsWith("/p//x/./y", "/p/x") && !PathStartsWith("/p/xy", "/p/x") && !PathStartsWith("p/x", "/p/x")
  {
    hide Components;
    Whole();
    Inner();
    Other();
    Relative();
    var want, inside, beside: seq<string> := ["/", "p", "x"], ["/", "p", "x", "y"], ["/", "p", "xy"];
    assert inside[..3] == want;
    assert want[2] != beside[2];
  }

  lemma Whole()
    ensures Components("/p/x") == ["/", "p", "x"]
  {
    var a, b, c: seq<string> := ["", "p", "x"], ["p", "x"], ["x"];
    assert a[1..] == b && b[1..] == c && c[1..] == [];
    assert Join(c, "/") == "x" && Join(b, "/") == "p/x" && Join(a, "/") == "/p/x";
    ComponentsExact(a);
  }

  lemma Inner()
    ensures Components("/p//x/./y") == ["/", "p", "x", "y"]
  {
    hide Names, Components, Join;
    var d := InnerTail();
    var c := [""] + d;
    var b := ["p"] + c;
    var a := [""] + b;
    FirstPiece("", d);
    FirstPiece("p", c);
    FirstPiece("", b);
    InnerText();
    assert Join(c, "/") == "" + "/" + Join(d, "/") && Join(b, "/") == "p" + "/" + Join(c, "/");
    assert Join(a, "/") == "" + "/" + Join(b, "/");
    assert Names(c, false) == [] + Names(d, false) && Names(b, false) == ["p"] + Names(c, false);
    InnerPieces(a);
    ComponentsExact(a);
  }

  lemma InnerText()
    ensures "" + "/" + ("p" + "/" + ("" + "/" + "x/./y")) == "/p//x/./y"
  {
  }

  lemma InnerPieces(a: seq<string>)
    requires |a| > 1 && forall piece <- a :: piece in {"", "p", "x", ".", "y"}
    ensures Pieces(a)
  {
  }

  lemma InnerTail() returns (d: seq<string>)
    ensures d != [] && d[0] == "x" && (forall piece <- d :: piece in {"x", ".", "y"})
    ensures Join(d, "/") == "x/./y" && Names(d, false) == ["x", "y"]
  {
    hide Names, Join;
    var f: seq<string> := ["y"];
    var e, none := ["."] + f, f[1..];
    d := ["x"] + e;
    NothingNamed();
    assert ["y"] + none == f;
    FirstPiece("y", none);
    FirstPiece(".", f);
    FirstPiece("x", e);
  }

  lemma NothingNamed()
    ensures forall front :: Names([], front) == []
  {
  }

  lemma FirstPiece(first: string, rest: seq<string>)
    ensures Join([first] + rest, "/") == if rest == [] then first else first + "/" + Join(rest, "/")
    ensures forall front ::
      Names([first] + rest, front)
      == (if first == "" || (first == "." && !front) then [] else [first]) + Names(rest, false)
  {
    assert ([first] + rest)[1..] == rest;
  }

  lemma Other()
    ensures Components("/p/xy") == ["/", "p", "xy"]
  {
    var a, b, c: seq<string> := ["", "p", "xy"], ["p", "xy"], ["xy"];
    assert a[1..] == b && b[1..] == c && c[1..] == [];
    assert Join(c, "/") == "xy" && Join(b, "/") == "p/xy" && Join(a, "/") == "/p/xy";
    ComponentsExact(a);
  }

  lemma Relative()
    ensures Components("p/x") == ["p", "x"]
  {
    var a, b: seq<string> := ["p", "x"], ["x"];
    assert a[1..] == b && b[1..] == [];
    assert Join(b, "/") == "x" && Join(a, "/") == "p/x";
    ComponentsExact(a);
  }

  // ---------------------------------------------------------------------------------------------
  // Rules
  // ---------------------------------------------------------------------------------------------

  /** The command of the call begins with this word. */
  ghost predicate Runs(args: Value, word: string) {
    exists line, blanks, rest :: Says(args, "command", line) && Begins(line, blanks, word, rest)
  }

  /** The path of the call leads here, name by name. */
  ghost predicate LeadsTo(args: Value, located: seq<string>) {
    exists pieces :: Pieces(pieces) && Says(args, "path", Join(pieces, "/")) && located == Located(pieces)
  }

  lemma RunsExact(args: Value, word: string)
    ensures CommandWord(args) == Some(word) <==> Runs(args, word)
  {
    hide FirstWord, Begins;
    forall line { SaysArg(args, "command", line); }
    if CommandWord(args) == Some(word) {
      FirstWordExact(StringArg(args, "command").value, word);
    }
    forall line, blanks, rest | Says(args, "command", line) && Begins(line, blanks, word, rest)
      ensures CommandWord(args) == Some(word)
    {
      FirstWordExact(line, word);
    }
  }

  lemma LeadsExact(args: Value, located: seq<string>)
    ensures StringArg(args, "path").Some? && Components(StringArg(args, "path").value) == located
       <==> LeadsTo(args, located)
  {
    hide Components, Located, Join;
    forall p { SaysArg(args, "path", p); }
    if StringArg(args, "path").Some? {
      var pieces := Split(StringArg(args, "path").value);
      ComponentsExact(pieces);
    }
    forall pieces | Pieces(pieces) && Says(args, "path", Join(pieces, "/")) && located == Located(pieces)
      ensures StringArg(args, "path").Some? && Components(StringArg(args, "path").value) == located
    {
      ComponentsExact(pieces);
    }
  }

  /** What a pattern matches: any call, the calls whose path leads to the place it names or into it, or the calls
      whose command begins with its word. */
  lemma PatternReach(pattern: ArgPattern, args: Value)
    ensures PatternMatches(pattern, args) <==>
      match pattern
      case Any => true
      case Path(want) => exists located :: LeadsTo(args, located) && Components(want) <= located
      case Command(want) => Runs(args, want)
  {
    hide Components, Runs, LeadsTo, CommandWord;
    match pattern {
      case Any =>
      case Path(want) =>
        var p := StringArg(args, "path");
        if p.Some? {
          LeadsExact(args, Components(p.value));
        }
        forall located | LeadsTo(args, located) { LeadsExact(args, located); }
      case Command(want) => RunsExact(args, want);
    }
  }

  predicate NamesPath(tool: string) {
    tool in {"read_file", "write_file", "list_dir", "glob"}
  }

  /** How far a decision recorded for call `a` reaches.  For `run` with a command: the calls that begin with the same
      word.  For a tool on files with a path: the calls on that path or below.  Otherwise all calls of the tool.
      Never a call of another tool. */
  lemma RecordedReach(tool: string, a: Value, d: Decision, other: string, b: Value)
    ensures var r := Rule(tool, ForCall(tool, a), d);
            && (Matches(r, other, b) ==> other == tool)
            && (tool == "run" && (exists w :: Runs(a, w)) ==>
                  (Matches(r, tool, b) <==> exists w :: Runs(a, w) && Runs(b, w)))
            && (NamesPath(tool) && (exists here :: LeadsTo(a, here)) ==>
                  (Matches(r, tool, b) <==>
                     exists here, there :: LeadsTo(a, here) && LeadsTo(b, there) && here <= there))
            && (!(tool == "run" && (exists w :: Runs(a, w)))
                && !(NamesPath(tool) && (exists here :: LeadsTo(a, here))) ==>
                  Matches(r, tool, b))
  {
    hide Components, Runs, LeadsTo, CommandWord;
    forall w { RunsExact(a, w); }
    forall located { LeadsExact(a, located); }
    if StringArg(a, "path").Some? {
      LeadsExact(a, Components(StringArg(a, "path").value));
    }
    if CommandWord(a).Some? {
      RunsExact(a, CommandWord(a).value);
    }
    PatternReach(ForCall(tool, a), b);
  }

  /** An entry on disk: with a path it reaches the calls that lead there or into it, without one but with a command
      those that begin with that word, and with neither every call of its tool. */
  lemma EntryReach(s: SerializableRule, d: Decision, tool: string, args: Value)
    ensures Matches(FromSerializable(s, d), tool, args) <==>
      && tool == s.tool
      && match (s.path, s.command)
         case (Some(p), _) => exists located :: LeadsTo(args, located) && Components(p) <= located
         case (None, Some(w)) => Runs(args, w)
         case (None, None) => true
    ensures FromSerializable(s, d).decision == d
  {
    hide Components, Runs, LeadsTo, CommandWord;
    PatternReach(FromSerializable(s, d).pattern, args);
  }
}
