/** Tool names on the way back to Gemini: a result carries only the id of its call, and the function name is
    looked up in the history (crates/provider-gemini/src/translate.rs). */
module GeminiHistory {
  import opened Base
  import opened Spp
  import Gemini

  datatype Role = User | Assistant

  /** What a message of a request may hold: what a reply can hold, a picture by its address, or a result. */
  datatype Block =
    | Said(b: ContentBlock)
    | PictureAt(url: string)
    | ToolResult(toolUseId: string, content: seq<ContentBlock>, isError: bool)

  datatype Message = Message(role: Role, content: seq<Block>)

  datatype Part =
    | TextPart(text: string)
    | ThoughtPart(thought: string, signature: Option<string>)
    | CallPart(called: string, args: Value)
    | ResponsePart(name: string, failed: bool, result: string)
    | DataPart(mimeType: string, data: string)

  datatype Content = Content(role: string, parts: seq<Part>)

  // ---------------------------------------------------------------------------------------------
  // Ids
  // ---------------------------------------------------------------------------------------------

  /** An id determines name and index, whatever dashes and digits the name has. */
  lemma IdDetermines(name1: string, i: nat, name2: string, j: nat)
    ensures Gemini.SynthesizeToolUseId(name1, i) == Gemini.SynthesizeToolUseId(name2, j) <==> name1 == name2 && i == j
  {
    DashedInjective("gemini-", name1, i, name2, j);
  }

  predicate Numbered(r: Gemini.Reply) {
    && |ToolUses(r.done)| == r.calls
    && (r.open.Some? ==> !r.open.value.ToolUse?)
    && forall k | 0 <= k < r.calls ::
         ToolUses(r.done)[k].id == Gemini.SynthesizeToolUseId(ToolUses(r.done)[k].name, k)
  }

  lemma {:induction false} CallsAreNumbered(hs: seq<Gemini.Heard>)
    ensures Numbered(Gemini.HearAll(Gemini.SILENCE, hs))
  {
    hide Gemini.SynthesizeToolUseId;
    if hs == [] {
      assert Gemini.HearAll(Gemini.SILENCE, hs) == Gemini.SILENCE;
    } else {
      var n := |hs| - 1;
      CallsAreNumbered(hs[..n]);
      HearNumbered(Gemini.HearAll(Gemini.SILENCE, hs[..n]), hs[n]);
    }
  }

  lemma HearNumbered(r: Gemini.Reply, h: Gemini.Heard)
    requires Numbered(r)
    ensures Numbered(Gemini.Hear(r, h))
  {
    hide Gemini.SynthesizeToolUseId, Gemini.MediaTypeOf, ToolUses;
    var after := Gemini.Hear(r, h);
    if |after.done| > |r.done| {
      var b := after.done[|r.done|];
      assert after.done == r.done + [b];
      ToolUsesSnoc(r.done, b);
    } else {
      assert after.done == r.done;
    }
  }

  /** Within one reply, whatever the model says, every call has an id of its own, and that id carries the
      called name. */
  lemma IdsInOneReply(chunks: seq<Gemini.Response>)
    ensures var uses := ToolUses(Gemini.Content(chunks));
            && (forall i, j | 0 <= i < j < |uses| :: uses[i].id != uses[j].id)
            && forall k | 0 <= k < |uses| :: uses[k].id == Gemini.SynthesizeToolUseId(uses[k].name, k)
  {
    hide Gemini.SynthesizeToolUseId, Gemini.HearAll, Gemini.HeardFrom;
    var hs := Gemini.HeardFrom("", false, Gemini.AllParts(chunks));
    var r := Gemini.HearAll(Gemini.SILENCE, hs);
    CallsAreNumbered(hs);
    if r.open.Some? {
      ToolUsesSnoc(r.done, r.open.value);
    }
    var uses := ToolUses(Gemini.Content(chunks));
    assert uses == ToolUses(r.done);
    forall i, j | 0 <= i < j < |uses| ensures uses[i].id != uses[j].id {
      IdDetermines(uses[i].name, i, uses[j].name, j);
    }
  }

  // ---------------------------------------------------------------------------------------------
  // The lookup
  // ---------------------------------------------------------------------------------------------

  predicate IsUse(b: Block) {
    b.Said? && b.b.ToolUse?
  }

  function UsesIn(blocks: seq<Block>): (uses: seq<ContentBlock>)
    ensures forall u <- uses :: u.ToolUse?
  {
    if blocks == [] then []
    else UsesIn(blocks[..|blocks| - 1]) + if IsUse(blocks[|blocks| - 1]) then [blocks[|blocks| - 1].b] else []
  }

  /** The calls of a history: the tool uses of its assistant messages. */
  function Calls(messages: seq<Message>): (uses: seq<ContentBlock>)
    ensures forall u <- uses :: u.ToolUse?
  {
    if messages == [] then []
    else
      var last := messages[|messages| - 1];
      Calls(messages[..|messages| - 1]) + if last.role == Assistant then UsesIn(last.content) else []
  }

  /** The name of the last call with each id. */
  function Names(uses: seq<ContentBlock>): map<string, string>
    requires forall u <- uses :: u.ToolUse?
  {
    if uses == [] then map[] else Names(uses[..|uses| - 1])[uses[|uses| - 1].id := uses[|uses| - 1].name]
  }

  method BuildToolIdLookup(messages: seq<Message>) returns (lookup: map<string, string>)
    ensures lookup == Names(Calls(messages))
  {
    hide UsesIn, Calls, Names;
    NothingUsed();
    lookup := map[];
    assert messages[..0] == [];
    for i := 0 to |messages|
      invariant lookup == Names(Calls(messages[..i]))
    {
      assert messages[..i + 1] == messages[..i] + [messages[i]];
      CallsSnoc(messages[..i], messages[i]);
      var m := messages[i];
      ghost var before := Calls(messages[..i]);
      if m.role != Assistant {
        assert before + [] == before;
        continue;
      }
      assert m.content[..0] == [] && before + [] == before;
      for k := 0 to |m.content|
        invariant lookup == Names(before + UsesIn(m.content[..k]))
      {
        assert m.content[..k + 1] == m.content[..k] + [m.content[k]];
        UsesSnoc(m.content[..k], m.content[k]);
        if m.content[k].Said? && m.content[k].b.ToolUse? {
          NamesSnoc(before + UsesIn(m.content[..k]), m.content[k].b);
          assert before + UsesIn(m.content[..k + 1]) == (before + UsesIn(m.content[..k])) + [m.content[k].b];
          lookup := lookup[m.content[k].b.id := m.content[k].b.name];
        } else {
          assert UsesIn(m.content[..k + 1]) == UsesIn(m.content[..k]);
        }
      }
      assert m.content[..|m.content|] == m.content;
    }
    assert messages[..|messages|] == messages;
  }

  lemma NothingUsed()
    ensures UsesIn([]) == [] && Calls([]) == [] && Names([]) == map[]
  {
  }

  lemma UsesSnoc(blocks: seq<Block>, b: Block)
    ensures UsesIn(blocks + [b]) == UsesIn(blocks) + if IsUse(b) then [b.b] else []
  {
    assert (blocks + [b])[..|blocks|] == blocks;
  }

  lemma CallsSnoc(messages: seq<Message>, m: Message)
    ensures Calls(messages + [m]) == Calls(messages) + if m.role == Assistant then UsesIn(m.content) else []
  {
    hide UsesIn;
    assert (messages + [m])[..|messages|] == messages;
  }

  lemma NamesSnoc(uses: seq<ContentBlock>, u: ContentBlock)
    requires u.ToolUse? && forall v <- uses :: v.ToolUse?
    ensures Names(uses + [u]) == Names(uses)[u.id := u.name]
  {
    assert (uses + [u])[..|uses|] == uses;
  }

  /** Every call finds its own name under its id. */
  predicate OwnNames(uses: seq<ContentBlock>)
    requires forall u <- uses :: u.ToolUse?
  {
    forall u <- uses :: u.id in Names(uses) && Names(uses)[u.id] == u.name
  }

  predicate Unambiguous(uses: seq<ContentBlock>)
    requires forall u <- uses :: u.ToolUse?
  {
    forall i, j | 0 <= i < j < |uses| && uses[i].id == uses[j].id :: uses[i].name == uses[j].name
  }

  lemma {:induction false} NamesAreCalled(uses: seq<ContentBlock>, id: string)
    requires forall u <- uses :: u.ToolUse?
    ensures id in Names(uses) <==> exists u <- uses :: u.id == id
    ensures id in Names(uses) ==> exists u <- uses :: u.id == id && u.name == Names(uses)[id]
  {
    if uses != [] {
      var n := |uses| - 1;
      assert uses == uses[..n] + [uses[n]];
      NamesAreCalled(uses[..n], id);
    }
  }

  /** The lookup is right for every call exactly when no id was used for two names. */
  lemma LookupIsRight(uses: seq<ContentBlock>)
    requires forall u <- uses :: u.ToolUse?
    ensures OwnNames(uses) <==> Unambiguous(uses)
  {
    hide Names;
    if Unambiguous(uses) {
      forall u <- uses ensures u.id in Names(uses) && Names(uses)[u.id] == u.name {
        NamesAreCalled(uses, u.id);
        var v :| v in uses && v.id == u.id && v.name == Names(uses)[u.id];
        var i :| 0 <= i < |uses| && uses[i] == u;
        var j :| 0 <= j < |uses| && uses[j] == v;
        assert i < j || j < i || i == j;
      }
    }
  }

  /** All ids were made by this provider, in any of its replies; indices start over in each. */
  ghost predicate Synthesized(uses: seq<ContentBlock>)
    requires forall u <- uses :: u.ToolUse?
  {
    forall u <- uses :: exists k: nat :: u.id == Gemini.SynthesizeToolUseId(u.name, k)
  }

  /** In any history of such ids, however often they recur, every call finds its own name. */
  lemma SynthesizedFindTheirNames(uses: seq<ContentBlock>)
    requires forall u <- uses :: u.ToolUse?
    requires Synthesized(uses)
    ensures OwnNames(uses)
  {
    hide Gemini.SynthesizeToolUseId, OwnNames;
    forall i, j | 0 <= i < j < |uses| && uses[i].id == uses[j].id ensures uses[i].name == uses[j].name {
      var k: nat :| uses[i].id == Gemini.SynthesizeToolUseId(uses[i].name, k);
      var l: nat :| uses[j].id == Gemini.SynthesizeToolUseId(uses[j].name, l);
      IdDetermines(uses[i].name, k, uses[j].name, l);
    }
    LookupIsRight(uses);
  }

  // ---------------------------------------------------------------------------------------------
  // The request
  // ---------------------------------------------------------------------------------------------

  function Texts(content: seq<ContentBlock>): string {
    if content == [] then ""
    else
      var before, b := Texts(content[..|content| - 1]), content[|content| - 1];
      if b.TextBlock? then (if before == "" then b.text else before + "\n" + b.text) else before
  }

  /** The texts among the blocks, in order. */
  function TextsOf(content: seq<ContentBlock>): seq<string> {
    if content == [] then []
    else
      var last := content[|content| - 1];
      TextsOf(content[..|content| - 1]) + if last.TextBlock? then [last.text] else []
  }

  /** Without the empty texts at the front. */
  function Trimmed(texts: seq<string>): (r: seq<string>)
    ensures |r| <= |texts|
    ensures r != [] ==> r[0] != ""
  {
    if texts != [] && texts[0] == "" then Trimmed(texts[1..]) else texts
  }

  lemma {:induction false} TrimmedSnoc(texts: seq<string>, t: string)
    ensures Trimmed(texts + [t]) == if Trimmed(texts) == [] && t == "" then [] else Trimmed(texts) + [t]
  {
    if texts == [] {
      assert texts + [t] == [t] && [t][1..] == [];
    } else if texts[0] == "" {
      assert (texts + [t])[1..] == texts[1..] + [t];
      TrimmedSnoc(texts[1..], t);
    }
  }

  /** What the loop builds: the texts joined by newlines, empty ones at the front left out. */
  lemma {:induction false} TextsAreJoined(content: seq<ContentBlock>)
    ensures Texts(content) == Join(Trimmed(TextsOf(content)), "\n")
    ensures Texts(content) == "" <==> Trimmed(TextsOf(content)) == []
  {
    if content != [] {
      var n := |content| - 1;
      var texts := TextsOf(content[..n]);
      TextsAreJoined(content[..n]);
      if content[n].TextBlock? {
        TrimmedSnoc(texts, content[n].text);
        JoinSnoc(Trimmed(texts), "\n", content[n].text);
      } else {
        assert TextsOf(content) == texts;
      }
    }
  }

  /** That is all texts joined by newlines exactly when there is at most one or the first is not empty. */
  lemma JoinedExactly(content: seq<ContentBlock>)
    ensures var texts := TextsOf(content);
            Texts(content) == Join(texts, "\n") <==> |texts| <= 1 || texts[0] != ""
  {
    TextsAreJoined(content);
    var texts := TextsOf(content);
    if |texts| > 1 && texts[0] == "" {
      ShorterThanJoined(texts);
    } else if |texts| == 1 && texts[0] == "" {
      assert texts[1..] == [];
    }
  }

  /** It is not when an empty text comes first. */
  lemma EmptyTextFirst(text: string)
    ensures var content := [TextBlock(""), TextBlock(text)];
            TextsOf(content) == ["", text] && Texts(content) == text && Texts(content) != Join(TextsOf(content), "\n")
  {
    var content := [TextBlock(""), TextBlock(text)];
    var first: seq<ContentBlock>, none: seq<ContentBlock> := [TextBlock("")], [];
    assert content[..1] == first && first[..0] == none;
    assert TextsOf(none) == [] && TextsOf(first) == [""];
    assert TextsOf(content) == [""] + [text] == ["", text];
    TextsAreJoined(content);
    JoinedExactly(content);
    assert Trimmed(["", text]) == Trimmed([text]) by { assert ["", text][1..] == [text]; }
    assert [text][1..] == [];
  }

  lemma {:induction false} ShorterThanJoined(texts: seq<string>)
    requires |texts| > 1 && texts[0] == ""
    ensures |Join(Trimmed(texts), "\n")| < |Join(texts, "\n")|
  {
    var rest := texts[1..];
    if rest[0] == "" {
      if |rest| > 1 {
        ShorterThanJoined(rest);
      } else {
        assert rest[1..] == [];
      }
    }
  }

  method FlattenToolResultText(content: seq<ContentBlock>) returns (buf: string)
    ensures buf == Texts(content) == Join(Trimmed(TextsOf(content)), "\n")
  {
    TextsAreJoined(content);
    buf := "";
    for k := 0 to |content|
      invariant buf == Texts(content[..k])
    {
      assert content[..k + 1][..k] == content[..k];
      if content[k].TextBlock? {
        if buf != "" {
          buf := buf + "\n";
        }
        buf := buf + content[k].text;
        assert "" + content[k].text == content[k].text;
      }
    }
    assert content[..|content|] == content;
  }

  function MimeType(m: MediaType): string {
    match m
    case Jpeg => "image/jpeg"
    case Png => "image/png"
    case Gif => "image/gif"
    case Webp => "image/webp"
  }

  /** The part sent for a block; a picture by address is left out. */
  function PartFor(b: Block, names: map<string, string>): Option<Part> {
    match b
    case PictureAt(_) => None
    case ToolResult(id, content, isError) =>
      Some(ResponsePart(if id in names then names[id] else "unknown_tool", isError, Texts(content)))
    case Said(block) =>
      Some(match block
           case TextBlock(text) => TextPart(text)
           case HtmlBlock(source) => TextPart(source)
           case ToolUse(_, name, input) => CallPart(name, input)
           case Thinking(text, signature) => ThoughtPart(text, signature)
           case Image(mediaType, data) => DataPart(MimeType(mediaType), data))
  }

  function PartsFor(blocks: seq<Block>, names: map<string, string>): seq<Part> {
    if blocks == [] then []
    else
      var p := PartFor(blocks[|blocks| - 1], names);
      PartsFor(blocks[..|blocks| - 1], names) + if p.Some? then [p.value] else []
  }

  function ContentFor(m: Message, names: map<string, string>): Content {
    var parts := PartsFor(m.content, names);
    Content(if m.role == User then "user" else "model", if parts == [] then [TextPart("")] else parts)
  }

  method MessageToGemini(m: Message, names: map<string, string>) returns (c: Content)
    ensures c == ContentFor(m, names) && c.parts != []
  {
    var parts: seq<Part> := [];
    for k := 0 to |m.content|
      invariant parts == PartsFor(m.content[..k], names)
    {
      assert m.content[..k + 1][..k] == m.content[..k];
      var p: Option<Part>;
      match m.content[k] {
        case PictureAt(_) => p := None;
        case Said(_) => p := PartFor(m.content[k], names);
        case ToolResult(id, content, isError) =>
          var text := FlattenToolResultText(content);
          p := Some(ResponsePart(if id in names then names[id] else "unknown_tool", isError, text));
      }
      if p.Some? {
        parts := parts + [p.value];
      }
    }
    assert m.content[..|m.content|] == m.content;
    if parts == [] {
      parts := [TextPart("")];
    }
    c := Content(if m.role == User then "user" else "model", parts);
  }

  /** Results find the names of their calls exactly when no id stands for two names. */
  lemma ResultsAreRight(uses: seq<ContentBlock>)
    requires forall u <- uses :: u.ToolUse?
    ensures Unambiguous(uses) <==>
      forall b: Block, u <- uses | b.ToolResult? && b.toolUseId == u.id ::
        PartFor(b, Names(uses)) == Some(ResponsePart(u.name, b.isError, Texts(b.content)))
  {
    hide Names, Texts;
    LookupIsRight(uses);
    if !Unambiguous(uses) {
      var u :| u in uses && !(u.id in Names(uses) && Names(uses)[u.id] == u.name);
      NamesAreCalled(uses, u.id);
      var b := ToolResult(u.id, [], false);
      assert PartFor(b, Names(uses)) != Some(ResponsePart(u.name, b.isError, Texts(b.content)));
    }
  }

  /** The conversation as it is sent.  Every result of a call of the history is sent under the name of
      its own call exactly when no id stands for two names; a result of no call is sent as `unknown_tool`; every
      message is sent in its place and with at least one part. */
  method RequestContents(messages: seq<Message>) returns (contents: seq<Content>, names: map<string, string>)
    ensures |contents| == |messages|
    ensures forall i | 0 <= i < |messages| :: contents[i] == ContentFor(messages[i], names) && contents[i].parts != []
    ensures Unambiguous(Calls(messages)) <==>
      forall b: Block, u <- Calls(messages) | b.ToolResult? && b.toolUseId == u.id ::
        PartFor(b, names) == Some(ResponsePart(u.name, b.isError, Texts(b.content)))
    ensures Synthesized(Calls(messages)) ==> Unambiguous(Calls(messages))
    ensures forall b: Block | b.ToolResult? && (forall u <- Calls(messages) :: u.id != b.toolUseId) ::
      PartFor(b, names) == Some(ResponsePart("unknown_tool", b.isError, Texts(b.content)))
  {
    hide Names, Calls, PartsFor, Synthesized;
    names := BuildToolIdLookup(messages);
    contents := [];
    for k := 0 to |messages|
      invariant |contents| == k
      invariant forall i | 0 <= i < k :: contents[i] == ContentFor(messages[i], names) && contents[i].parts != []
    {
      var c := MessageToGemini(messages[k], names);
      contents := contents + [c];
    }
    ResultsAreRight(Calls(messages));
    if Synthesized(Calls(messages)) {
      SynthesizedFindTheirNames(Calls(messages));
      LookupIsRight(Calls(messages));
    }
    forall b: Block | b.ToolResult? && (forall u <- Calls(messages) :: u.id != b.toolUseId)
      ensures PartFor(b, names) == Some(ResponsePart("unknown_tool", b.isError, Texts(b.content)))
    {
      NamesAreCalled(Calls(messages), b.toolUseId);
    }
  }

  /** The part says what the block says. */
  predicate Stands(p: Part, b: ContentBlock) {
    match p
    case TextPart(t) => b == TextBlock(t) || b == HtmlBlock(t)
    case ThoughtPart(t, s) => b == Thinking(t, s)
    case CallPart(name, args) => b.ToolUse? && b.name == name && b.input == args
    case DataPart(mime, data) =>
      && b.Image? && b.data == data && b.mediaType == Gemini.MediaTypeOf(mime)
      && mime in {"image/jpeg", "image/png", "image/gif", "image/webp"}
    case ResponsePart(_, _, _) => false
  }

  /** A reply is sent back block by block. */
  lemma {:induction false} SentAsSaid(blocks: seq<ContentBlock>, names: map<string, string>)
    ensures |PartsFor(AsSaid(blocks), names)| == |blocks|
    ensures forall k | 0 <= k < |blocks| :: Stands(PartsFor(AsSaid(blocks), names)[k], blocks[k])
  {
    if blocks != [] {
      var n := |blocks| - 1;
      SentAsSaid(blocks[..n], names);
      assert AsSaid(blocks)[..n] == AsSaid(blocks[..n]);
    }
  }

  /** A history whose assistant messages are replies of this provider has only synthesized ids. */
  lemma {:induction false} RepliesAreSynthesized(messages: seq<Message>, replies: seq<seq<Gemini.Response>>)
    requires |replies| == |messages|
    requires forall i | 0 <= i < |messages| && messages[i].role == Assistant ::
      messages[i].content == AsSaid(Gemini.Content(replies[i]))
    ensures Synthesized(Calls(messages))
  {
    hide Gemini.Content, Gemini.SynthesizeToolUseId;
    if messages != [] {
      var n := |messages| - 1;
      RepliesAreSynthesized(messages[..n], replies[..n]);
      var content := Gemini.Content(replies[n]);
      IdsInOneReply(replies[n]);
      SaidUses(content);
      forall u <- ToolUses(content) ensures exists k: nat :: u.id == Gemini.SynthesizeToolUseId(u.name, k) {
        var k :| 0 <= k < |ToolUses(content)| && ToolUses(content)[k] == u;
        assert u.id == Gemini.SynthesizeToolUseId(u.name, k);
      }
    }
  }

  function AsSaid(blocks: seq<ContentBlock>): seq<Block> {
    seq(|blocks|, k requires 0 <= k < |blocks| => Said(blocks[k]))
  }

  lemma {:induction false} SaidUses(blocks: seq<ContentBlock>)
    ensures UsesIn(AsSaid(blocks)) == ToolUses(blocks)
  {
    if blocks != [] {
      var n := |blocks| - 1;
      SaidUses(blocks[..n]);
      assert AsSaid(blocks)[..n] == AsSaid(blocks[..n]);
    }
  }
}
