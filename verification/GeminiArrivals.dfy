/** What arrives of a Gemini reply, told from the parts of its chunks alone: every call, every picture, every
    thought and every character the fence lets through (crates/provider-gemini/src/stream.rs). */
module GeminiArrivals {
  import opened Base
  import opened Fence
  import opened Spp
  import opened Arrivals
  import Gemini

  /** The parts of the first candidate of every chunk. */
  function RawParts(chunks: seq<Gemini.Response>): seq<Gemini.Part> {
    if chunks == [] then []
    else (if |chunks[0].candidates| > 0 then chunks[0].candidates[0].parts else []) + RawParts(chunks[1..])
  }

  lemma {:induction false} PartsAreRaw(chunks: seq<Gemini.Response>)
    ensures Gemini.AllParts(chunks) == RawParts(chunks)
  {
    if chunks != [] {
      PartsAreRaw(chunks[1..]);
    }
  }

  // ---------------------------------------------------------------------------------------------
  // What each part is.  A call comes before a picture, a picture before text.
  // ---------------------------------------------------------------------------------------------

  function CallIn(p: Gemini.Part): seq<Gemini.FunctionCall> {
    match p.functionCall
    case Some(fc) => [fc]
    case None => []
  }

  /** A picture counts when it comes without a call. */
  function PictureIn(p: Gemini.Part): seq<Gemini.InlineData> {
    match p
    case Part(_, _, _, Some(d), None) => [d]
    case _ => []
  }

  datatype Note = Note(text: string, signature: Option<string>)

  /** A thought is text flagged as such, without a call or a picture. */
  function ThoughtIn(p: Gemini.Part): seq<Note> {
    match p
    case Part(Some(t), Some(true), signature, None, None) => [Note(t, signature)]
    case _ => []
  }

  function TextIn(p: Gemini.Part): seq<string> {
    match p
    case Part(Some(t), thought, _, None, None) => if thought == Some(true) then [] else [t]
    case _ => []
  }

  function CallsIn(ps: seq<Gemini.Part>): seq<Gemini.FunctionCall> {
    if ps == [] then [] else CallIn(ps[0]) + CallsIn(ps[1..])
  }

  function PicturesIn(ps: seq<Gemini.Part>): seq<Gemini.InlineData> {
    if ps == [] then [] else PictureIn(ps[0]) + PicturesIn(ps[1..])
  }

  function ThoughtsIn(ps: seq<Gemini.Part>): seq<Note> {
    if ps == [] then [] else ThoughtIn(ps[0]) + ThoughtsIn(ps[1..])
  }

  function TextsIn(ps: seq<Gemini.Part>): seq<string> {
    if ps == [] then [] else TextIn(ps[0]) + TextsIn(ps[1..])
  }

  // ---------------------------------------------------------------------------------------------
  // What was heard, kind by kind
  // ---------------------------------------------------------------------------------------------

  /** What `take` finds in each thing heard, joined. */
  function Pick<T>(hs: seq<Gemini.Heard>, take: Gemini.Heard -> seq<T>): seq<T> {
    if hs == [] then [] else Pick(hs[..|hs| - 1], take) + take(hs[|hs| - 1])
  }

  function CallOf(h: Gemini.Heard): seq<Gemini.FunctionCall> {
    if h.Called? then [h.call] else []
  }

  function PictureOf(h: Gemini.Heard): seq<Gemini.InlineData> {
    if h.Shown? then [h.picture] else []
  }

  function NoteOf(h: Gemini.Heard): seq<Note> {
    if h.Thought? then [Note(h.text, h.signature)] else []
  }

  function LetterOf(h: Gemini.Heard): seq<Sym> {
    if h.Said? then [h.sym] else []
  }

  function HeardCalls(hs: seq<Gemini.Heard>): seq<Gemini.FunctionCall> {
    Pick(hs, CallOf)
  }

  function HeardPictures(hs: seq<Gemini.Heard>): seq<Gemini.InlineData> {
    Pick(hs, PictureOf)
  }

  function HeardThoughts(hs: seq<Gemini.Heard>): seq<Note> {
    Pick(hs, NoteOf)
  }

  function HeardLetters(hs: seq<Gemini.Heard>): seq<Sym> {
    Pick(hs, LetterOf)
  }

  lemma PickSnoc<T>(hs: seq<Gemini.Heard>, h: Gemini.Heard, take: Gemini.Heard -> seq<T>)
    ensures Pick(hs + [h], take) == Pick(hs, take) + take(h)
  {
    assert (hs + [h])[..|hs|] == hs;
  }

  lemma {:induction false} PickJoin<T>(a: seq<Gemini.Heard>, b: seq<Gemini.Heard>, take: Gemini.Heard -> seq<T>)
    ensures Pick(a + b, take) == Pick(a, take) + Pick(b, take)
    decreases |b|
  {
    if b == [] {
      assert a + b == a;
    } else {
      var n := |b| - 1;
      assert (a + b)[..|a| + n] == a + b[..n];
      PickJoin(a, b[..n], take);
    }
  }

  lemma HeardSnoc(hs: seq<Gemini.Heard>, h: Gemini.Heard)
    ensures HeardCalls(hs + [h]) == if h.Called? then HeardCalls(hs) + [h.call] else HeardCalls(hs)
    ensures HeardPictures(hs + [h]) == if h.Shown? then HeardPictures(hs) + [h.picture] else HeardPictures(hs)
    ensures HeardThoughts(hs + [h])
         == if h.Thought? then HeardThoughts(hs) + [Note(h.text, h.signature)] else HeardThoughts(hs)
    ensures HeardLetters(hs + [h]) == if h.Said? then HeardLetters(hs) + [h.sym] else HeardLetters(hs)
  {
    hide Pick;
    PickSnoc(hs, h, CallOf);
    PickSnoc(hs, h, PictureOf);
    PickSnoc(hs, h, NoteOf);
    PickSnoc(hs, h, LetterOf);
  }

  lemma HeardJoin(a: seq<Gemini.Heard>, b: seq<Gemini.Heard>)
    ensures HeardCalls(a + b) == HeardCalls(a) + HeardCalls(b)
    ensures HeardPictures(a + b) == HeardPictures(a) + HeardPictures(b)
    ensures HeardThoughts(a + b) == HeardThoughts(a) + HeardThoughts(b)
    ensures HeardLetters(a + b) == HeardLetters(a) + HeardLetters(b)
  {
    hide Pick;
    PickJoin(a, b, CallOf);
    PickJoin(a, b, PictureOf);
    PickJoin(a, b, NoteOf);
    PickJoin(a, b, LetterOf);
  }

  lemma {:induction false} SaidsAreLetters(syms: seq<Sym>)
    ensures var hs := Gemini.Saids(syms);
            HeardCalls(hs) == [] && HeardPictures(hs) == [] && HeardThoughts(hs) == [] && HeardLetters(hs) == syms
  {
    if syms != [] {
      var n := |syms| - 1;
      assert Gemini.Saids(syms)[..n] == Gemini.Saids(syms[..n]);
      SaidsAreLetters(syms[..n]);
    }
  }

  /** What one part says, kind by kind. */
  lemma PartSays(buf: string, inside: bool, p: Gemini.Part)
    ensures var hs := Gemini.PartHeard(buf, inside, p);
            && HeardCalls(hs) == CallIn(p) && HeardPictures(hs) == PictureIn(p) && HeardThoughts(hs) == ThoughtIn(p)
            && HeardLetters(hs) == Gemini.FenceAfter(buf, inside, p).out
  {
    hide Feed, Gemini.Saids, HeardCalls, HeardPictures, HeardThoughts, HeardLetters;
    var hs := Gemini.PartHeard(buf, inside, p);
    NothingHeard();
    if Gemini.IsPlainText(p) {
      SaidsAreLetters(Feed(buf + p.text.value, inside).out);
    } else if hs != [] {
      OneHeard(hs[0]);
      assert hs == [hs[0]];
    }
  }

  lemma NothingHeard()
    ensures HeardCalls([]) == [] && HeardPictures([]) == [] && HeardThoughts([]) == [] && HeardLetters([]) == []
  {
  }

  lemma OneHeard(h: Gemini.Heard)
    ensures HeardCalls([h]) == CallOf(h) && HeardPictures([h]) == PictureOf(h)
    ensures HeardThoughts([h]) == NoteOf(h) && HeardLetters([h]) == LetterOf(h)
  {
    hide HeardCalls, HeardPictures, HeardThoughts, HeardLetters;
    NothingHeard();
    HeardSnoc([], h);
    assert [] + [h] == [h];
  }

  lemma {:induction false} AllSay(buf: string, inside: bool, ps: seq<Gemini.Part>)
    ensures var hs := Gemini.HeardFrom(buf, inside, ps);
            && HeardCalls(hs) == CallsIn(ps) && HeardPictures(hs) == PicturesIn(ps)
              && HeardThoughts(hs) == ThoughtsIn(ps)
            && HeardLetters(hs) == Run(buf, inside, TextsIn(ps)).out
    decreases |ps|
  {
    hide Feed, EndOfText, Gemini.PartHeard, HeardCalls, HeardPictures, HeardThoughts, HeardLetters, Gemini.Saids;
    if ps == [] {
      SaidsAreLetters(EndOfText(buf, inside).out);
    } else {
      var f := Gemini.FenceAfter(buf, inside, ps[0]);
      PartSays(buf, inside, ps[0]);
      AllSay(f.buf, f.inside, ps[1..]);
      HeardJoin(Gemini.PartHeard(buf, inside, ps[0]), Gemini.HeardFrom(f.buf, f.inside, ps[1..]));
      if Gemini.IsPlainText(ps[0]) {
        assert TextIn(ps[0]) == [ps[0].text.value];
        assert TextsIn(ps)[0] == ps[0].text.value && TextsIn(ps)[1..] == TextsIn(ps[1..]);
      } else {
        assert TextIn(ps[0]) == [];
        assert TextsIn(ps) == TextsIn(ps[1..]);
        assert [] + Run(buf, inside, TextsIn(ps)).out == Run(buf, inside, TextsIn(ps)).out;
      }
    }
  }

  // ---------------------------------------------------------------------------------------------
  // What is in the reply, kind by kind
  // ---------------------------------------------------------------------------------------------

  function Pictures(blocks: seq<ContentBlock>): (r: seq<ContentBlock>)
    ensures forall b <- r :: b.Image?
  {
    if blocks == [] then [] else
      var last := blocks[|blocks| - 1];
      Pictures(blocks[..|blocks| - 1]) + if last.Image? then [last] else []
  }

  function Thoughts(blocks: seq<ContentBlock>): (r: seq<ContentBlock>)
    ensures forall b <- r :: b.Thinking?
  {
    if blocks == [] then [] else
      var last := blocks[|blocks| - 1];
      Thoughts(blocks[..|blocks| - 1]) + if last.Thinking? then [last] else []
  }

  lemma BlocksSnoc(blocks: seq<ContentBlock>, b: ContentBlock)
    ensures Pictures(blocks + [b]) == Pictures(blocks) + if b.Image? then [b] else []
    ensures Thoughts(blocks + [b]) == Thoughts(blocks) + if b.Thinking? then [b] else []
  {
    assert (blocks + [b])[..|blocks|] == blocks;
  }

  /** All thinking text. */
  function ThoughtText(blocks: seq<ContentBlock>): string
    requires forall b <- blocks :: b.Thinking?
  {
    if blocks == [] then "" else ThoughtText(blocks[..|blocks| - 1]) + blocks[|blocks| - 1].text
  }

  function NotedText(notes: seq<Note>): string {
    if notes == [] then "" else NotedText(notes[..|notes| - 1]) + notes[|notes| - 1].text
  }

  /** The thinking blocks hold the text of all thoughts, and the last of them the signature of the last thought if
      that has one. */
  predicate Noted(blocks: seq<ContentBlock>, notes: seq<Note>)
    requires forall b <- blocks :: b.Thinking?
  {
    && ThoughtText(blocks) == NotedText(notes)
    && (notes != [] && notes[|notes| - 1].signature.Some? ==>
          blocks != [] && blocks[|blocks| - 1].signature == notes[|notes| - 1].signature)
  }

  predicate Drawn(b: ContentBlock, p: Gemini.InlineData)
    requires b.Image?
  {
    && b.data == p.data
    && (b.mediaType == Jpeg <==> p.mimeType == "image/jpeg") && (b.mediaType == Gif <==> p.mimeType == "image/gif")
    && (b.mediaType == Webp <==> p.mimeType == "image/webp")
  }

  /** Each use is its call, in order. */
  predicate Used(uses: seq<ContentBlock>, calls: seq<Gemini.FunctionCall>)
    requires forall u <- uses :: u.ToolUse?
  {
    && |uses| == |calls|
    && forall k | 0 <= k < |calls| :: uses[k].name == calls[k].name && uses[k].input == calls[k].args
  }

  predicate AllDrawn(images: seq<ContentBlock>, pictures: seq<Gemini.InlineData>)
    requires forall b <- images :: b.Image?
  {
    |images| == |pictures| && forall k | 0 <= k < |pictures| :: Drawn(images[k], pictures[k])
  }

  /** The reply against what was heard. */
  predicate Holds(blocks: seq<ContentBlock>, hs: seq<Gemini.Heard>) {
    && Used(ToolUses(blocks), HeardCalls(hs))
    && AllDrawn(Pictures(blocks), HeardPictures(hs))
    && Noted(Thoughts(blocks), HeardThoughts(hs))
    && Letters(blocks) == HeardLetters(hs)
  }

  lemma {:induction false} ReplyHolds(hs: seq<Gemini.Heard>)
    ensures Holds(Gemini.Finished(Gemini.HearAll(Gemini.SILENCE, hs)), hs)
    ensures !UsesOrShows(Gemini.HearAll(Gemini.SILENCE, hs).open)
  {
    hide Holds, Gemini.Hear, Gemini.Finished, UsesOrShows;
    if hs == [] {
      SilenceHolds();
    } else {
      var n := |hs| - 1;
      var r := Gemini.HearAll(Gemini.SILENCE, hs[..n]);
      ReplyHolds(hs[..n]);
      assert hs == hs[..n] + [hs[n]];
      HearHolds(r, hs[..n], hs[n]);
    }
  }

  lemma SilenceHolds()
    ensures Holds(Gemini.Finished(Gemini.SILENCE), []) && !UsesOrShows(Gemini.SILENCE.open)
  {
  }

  predicate UsesOrShows(b: Option<ContentBlock>) {
    b.Some? && (b.value.ToolUse? || b.value.Image?)
  }

  /** Every projection of one more block. */
  lemma AllSnoc(blocks: seq<ContentBlock>, b: ContentBlock)
    ensures ToolUses(blocks + [b]) == ToolUses(blocks) + if b.ToolUse? then [b] else []
    ensures Pictures(blocks + [b]) == Pictures(blocks) + if b.Image? then [b] else []
    ensures Thoughts(blocks + [b]) == Thoughts(blocks) + if b.Thinking? then [b] else []
    ensures Letters(blocks + [b]) == Letters(blocks) + LettersOf(b)
  {
    ToolUsesSnoc(blocks, b);
    BlocksSnoc(blocks, b);
    LettersSnoc(blocks, b);
  }

  lemma HearHolds(r: Gemini.Reply, hs: seq<Gemini.Heard>, h: Gemini.Heard)
    requires Holds(Gemini.Finished(r), hs) && !UsesOrShows(r.open)
    ensures Holds(Gemini.Finished(Gemini.Hear(r, h)), hs + [h]) && !UsesOrShows(Gemini.Hear(r, h).open)
  {
    HeardSnoc(hs, h);
    hide ToolUses, Pictures, Thoughts, Letters, HeardCalls, HeardPictures, HeardThoughts, HeardLetters, Drawn;
    hide ThoughtText, NotedText, Gemini.SynthesizeToolUseId;
    match h {
      case Said(sym) => TextHolds(r, hs, sym);
      case Thought(t, s) => ThoughtHolds(r, hs, t, s);
      case Called(fc) =>
        var use := ToolUse(Gemini.SynthesizeToolUseId(fc.name, r.calls), fc.name, fc.args);
        WholeHolds(r, use, r.calls + 1);
        assert Gemini.Hear(r, h) == Gemini.Reply(r.done + [use], r.open, r.calls + 1);
      case Shown(p) =>
        WholeHolds(r, Image(Gemini.MediaTypeOf(p.mimeType), p.data), r.calls);
        PictureDrawn(p);
    }
  }

  lemma PictureDrawn(p: Gemini.InlineData)
    ensures Drawn(Image(Gemini.MediaTypeOf(p.mimeType), p.data), p)
  {
  }

  /** A block that is finished at once goes before the growing one. */
  lemma WholeHolds(r: Gemini.Reply, b: ContentBlock, calls: nat)
    requires !UsesOrShows(r.open) && (b.ToolUse? || b.Image?)
    ensures var before, after := Gemini.Finished(r), Gemini.Finished(Gemini.Reply(r.done + [b], r.open, calls));
            && ToolUses(after) == ToolUses(before) + (if b.ToolUse? then [b] else [])
            && Pictures(after) == Pictures(before) + (if b.Image? then [b] else [])
            && Thoughts(after) == Thoughts(before) && Letters(after) == Letters(before)
  {
    hide ToolUses, Pictures, Thoughts, Letters;
    AllSnoc(r.done, b);
    if r.open.Some? {
      AllSnoc(r.done, r.open.value);
      AllSnoc(r.done + [b], r.open.value);
    }
  }

  lemma TextHolds(r: Gemini.Reply, hs: seq<Gemini.Heard>, sym: Sym)
    requires Holds(Gemini.Finished(r), hs) && !UsesOrShows(r.open)
    ensures var after := Gemini.Finished(Gemini.HearText(r, sym.html, [sym.c]));
            && ToolUses(after) == ToolUses(Gemini.Finished(r)) && Pictures(after) == Pictures(Gemini.Finished(r))
            && Thoughts(after) == Thoughts(Gemini.Finished(r)) && Letters(after) == Letters(Gemini.Finished(r)) + [sym]
  {
    hide ToolUses, Pictures, Thoughts, Letters, Holds;
    var next := Gemini.HearText(r, sym.html, [sym.c]);
    assert Tag(sym.html, [sym.c]) == [sym];
    if r.open.Some? {
      AllSnoc(r.done, r.open.value);
    }
    AllSnoc(next.done, next.open.value);
    if next.done == r.done && r.open.Some? {
      TagConcat(sym.html, StreamText(r.open.value), [sym.c]);
    }
  }

  lemma ThoughtHolds(r: Gemini.Reply, hs: seq<Gemini.Heard>, text: string, signature: Option<string>)
    requires Holds(Gemini.Finished(r), hs) && !UsesOrShows(r.open)
    ensures var before, after := Gemini.Finished(r), Gemini.Finished(Gemini.HearThought(r, text, signature));
            && ToolUses(after) == ToolUses(before) && Pictures(after) == Pictures(before)
            && Letters(after) == Letters(before) && Noted(Thoughts(after), HeardThoughts(hs) + [Note(text, signature)])
  {
    hide ToolUses, Pictures, Thoughts, Letters, Used, AllDrawn, Noted, HeardThoughts;
    var next := Gemini.HearThought(r, text, signature);
    if r.open.Some? {
      AllSnoc(r.done, r.open.value);
    }
    AllSnoc(next.done, next.open.value);
    if r.open.Some? && r.open.value.Thinking? {
      NotedLonger(Thoughts(r.done), r.open.value, HeardThoughts(hs), Note(text, signature));
    } else {
      NotedMore(Thoughts(Gemini.Finished(r)), HeardThoughts(hs), Note(text, signature));
    }
  }

  lemma NotedLonger(before: seq<ContentBlock>, b: ContentBlock, notes: seq<Note>, n: Note)
    requires (forall x <- before :: x.Thinking?) && b.Thinking? && Noted(before + [b], notes)
    ensures var signature := if n.signature.Some? then n.signature else b.signature;
            Noted(before + [Thinking(b.text + n.text, signature)], notes + [n])
  {
    hide ThoughtText, NotedText;
    var signature := if n.signature.Some? then n.signature else b.signature;
    NotedSnoc(notes, n);
    ThoughtTextSnoc(before, b);
    ThoughtTextSnoc(before, Thinking(b.text + n.text, signature));
  }

  lemma NotedMore(before: seq<ContentBlock>, notes: seq<Note>, n: Note)
    requires (forall x <- before :: x.Thinking?) && Noted(before, notes)
    ensures Noted(before + [Thinking(n.text, n.signature)], notes + [n])
  {
    hide ThoughtText, NotedText;
    NotedSnoc(notes, n);
    ThoughtTextSnoc(before, Thinking(n.text, n.signature));
  }

  lemma NotedSnoc(notes: seq<Note>, n: Note)
    ensures NotedText(notes + [n]) == NotedText(notes) + n.text
  {
    assert (notes + [n])[..|notes|] == notes;
  }

  lemma ThoughtTextSnoc(blocks: seq<ContentBlock>, b: ContentBlock)
    requires (forall x <- blocks :: x.Thinking?) && b.Thinking?
    ensures ThoughtText(blocks + [b]) == ThoughtText(blocks) + b.text
  {
    assert (blocks + [b])[..|blocks|] == blocks;
  }

  /** Everything arrives, kind by kind, whatever the parts and however they are spread over the chunks.  Calls and
      pictures come in order, each as it was sent; the thinking blocks hold the text of all thoughts; the text is
      what one fence parser makes of all the plain text. */
  lemma EverythingArrives(chunks: seq<Gemini.Response>)
    ensures var ps, content := RawParts(chunks), Gemini.Content(chunks);
            && Used(ToolUses(content), CallsIn(ps)) && AllDrawn(Pictures(content), PicturesIn(ps))
            && Noted(Thoughts(content), ThoughtsIn(ps))
            && Letters(content) == Run("", false, TextsIn(ps)).out
  {
    hide ToolUses, Pictures, Thoughts, Letters, Used, AllDrawn, Noted, Gemini.HearAll, Gemini.HeardFrom, CallsIn;
    hide PicturesIn;
    hide HeardCalls, HeardPictures, HeardThoughts, HeardLetters, Gemini.Finished, ThoughtsIn, TextsIn, Run;
    PartsAreRaw(chunks);
    AllSay("", false, RawParts(chunks));
    ReplyHolds(Gemini.HeardFrom("", false, RawParts(chunks)));
  }

  /** What the parts say when no text is held back. */
  function Spoken(ps: seq<Gemini.Part>): seq<Gemini.Heard> {
    if ps == [] then []
    else
      (match ps[0]
       case Part(_, _, _, _, Some(fc)) => [Gemini.Called(fc)]
       case Part(_, _, _, Some(p), None) => [Gemini.Shown(p)]
       case Part(Some(t), thought, signature, None, None) =>
         if thought == Some(true) then [Gemini.Thought(t, signature)] else Gemini.Saids(Tag(false, t))
       case _ => [])
      + Spoken(ps[1..])
  }

  /** Parts are heard in the order in which they came. */
  lemma {:induction false} InOrder(ps: seq<Gemini.Part>)
    requires forall t <- TextsIn(ps) :: Flowing(t)
    ensures Gemini.HeardFrom("", false, ps) == Spoken(ps)
    decreases |ps|
  {
    hide Feed, Tag, Flowing, Gemini.Saids;
    if ps != [] {
      if Gemini.IsPlainText(ps[0]) {
        var t := ps[0].text.value;
        assert TextsIn(ps)[0] == t && "" + t == t;
        FlowsThrough(t);
      }
      InOrder(ps[1..]);
    } else {
      assert Gemini.Saids([]) == [];
    }
  }
}
