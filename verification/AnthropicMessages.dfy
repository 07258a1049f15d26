/** The reply to a message told block by block: what each block says depends on nothing but its start and its deltas,
    and a message that breaks off is completed from them (crates/provider-anthropic/src/stream.rs). */
module AnthropicMessages {
  import opened Base
  import opened Fence
  import opened Spp
  import opened Anthropic
  import opened AnthropicTexts

  /** One block as the upstream sends it. */
  datatype Sent = Sent(index: nat, head: UpBlock, deltas: seq<UpDelta>)

  /** The kinds of delta a block takes. */
  predicate Suits(head: UpBlock, d: UpDelta) {
    match head
    case UpText(_) => d.UpTextDelta?
    case UpToolUse(_, _, _) => d.UpInputJsonDelta?
    case UpThinking(_, _) => d.UpThinkingDelta? || d.UpSignatureDelta?
    case UpImage => false
  }

  predicate AllSuit(head: UpBlock, ds: seq<UpDelta>) {
    if head.UpImage? then ds == [] else forall d <- ds :: Suits(head, d)
  }

  function DeltaEvents(i: nat, ds: seq<UpDelta>): (r: seq<UpEvent>)
    ensures |r| == |ds| && forall k | 0 <= k < |ds| :: r[k] == UpBlockDelta(i, ds[k])
  {
    seq(|ds|, k requires 0 <= k < |ds| => UpBlockDelta(i, ds[k]))
  }

  /** The block as far as its deltas. */
  function Begun(b: Sent): seq<UpEvent> {
    [UpBlockStart(b.index, b.head)] + DeltaEvents(b.index, b.deltas)
  }

  function Written(blocks: seq<Sent>): seq<UpEvent> {
    if blocks == [] then []
    else Begun(blocks[0]) + ([UpBlockStop(blocks[0].index)] + Written(blocks[1..]))
  }

  // ---------------------------------------------------------------------------------------------
  // What a block says
  // ---------------------------------------------------------------------------------------------

  /** The characters a delta carries. */
  function Fragment(d: UpDelta): string {
    match d
    case UpTextDelta(t) => t
    case UpInputJsonDelta(j) => j
    case UpThinkingDelta(t) => t
    case UpSignatureDelta(_) => ""
  }

  function Fragments(ds: seq<UpDelta>): (r: seq<string>)
    ensures |r| == |ds| && forall k | 0 <= k < |ds| :: r[k] == Fragment(ds[k])
  {
    seq(|ds|, k requires 0 <= k < |ds| => Fragment(ds[k]))
  }

  /** The last signature that came, else the one there was. */
  function Signature(s: Option<string>, ds: seq<UpDelta>): Option<string>
    decreases |ds|
  {
    if ds == [] then s
    else Signature(if ds[0].UpSignatureDelta? then Some(ds[0].signature) else s, ds[1..])
  }

  function Parsed(json: string, parse: string -> Option<Value>): Value {
    if json != "" && parse(json).Some? then parse(json).value else Obj([])
  }

  /** Text as the fence parser reads it, a tool use with the input of its joined deltas, a thought with all its text
      and its last signature; an image says nothing. */
  function Says(b: Sent, parse: string -> Option<Value>): seq<Item> {
    var frags := Fragments(b.deltas);
    match b.head
    case UpText(_) => Glyphs(Run("", false, frags).out)
    case UpToolUse(id, name, _) => [Whole(ToolUse(id, name, Parsed(Concat(frags), parse)))]
    case UpThinking(t, s) => [Whole(Thinking(t + Concat(frags), Signature(s, b.deltas)))]
    case UpImage => []
  }

  function AllSay(blocks: seq<Sent>, parse: string -> Option<Value>): seq<Item> {
    if blocks == [] then [] else Says(blocks[0], parse) + AllSay(blocks[1..], parse)
  }

  // ---------------------------------------------------------------------------------------------
  // How it is heard
  // ---------------------------------------------------------------------------------------------

  /** What is pending after some deltas. */
  predicate Grown(before: Pending, ds: seq<UpDelta>, after: Pending, out: seq<Item>) {
    match before
    case PendingText(i, buf, inside) =>
      var f := PushAll(buf, inside, Fragments(ds));
      after == PendingText(i, f.buf, f.inside) && out == Glyphs(f.out)
    case PendingTool(i, id, name, json) =>
      after == PendingTool(i, id, name, json + Concat(Fragments(ds))) && out == []
    case PendingThinking(i, t, s) =>
      after == PendingThinking(i, t + Concat(Fragments(ds)), Signature(s, ds)) && out == []
    case _ => after == before && out == []
  }

  predicate PendingSuits(p: Pending, ds: seq<UpDelta>) {
    match p
    case PendingText(_, _, _) => forall d <- ds :: d.UpTextDelta?
    case PendingTool(_, _, _, _) => forall d <- ds :: d.UpInputJsonDelta?
    case PendingThinking(_, _, _) => forall d <- ds :: d.UpThinkingDelta? || d.UpSignatureDelta?
    case _ => ds == []
  }

  lemma PushFirst(buf: string, inside: bool, frags: seq<string>)
    requires frags != []
    ensures var f := Feed(buf + frags[0], inside);
            var rest := PushAll(f.buf, f.inside, frags[1..]);
            PushAll(buf, inside, frags) == Fed(f.out + rest.out, rest.buf, rest.inside)
  {
    hide Feed;
  }

  lemma ConcatUnfold(frags: seq<string>)
    requires frags != []
    ensures Concat(frags) == frags[0] + Concat(frags[1..])
  {
  }

  lemma GrownFirst(p: Pending, d: UpDelta, ds: seq<UpDelta>, u: Upstream, v: Upstream, after: Pending, out: seq<Item>)
    requires u.phase.Streaming? && u.pending == p && !p.Nothing? && PendingSuits(p, [d] + ds)
    requires HearDelta(u, p.index, d) == Some(v) && Grown(v.pending, ds, after, out)
    ensures exists first :: v.said == u.said + first && Grown(p, [d] + ds, after, first + out)
  {
    hide Feed, PushAll, Concat;
    var all := [d] + ds;
    assert all[0] == d && all[1..] == ds;
    var frag := Fragment(d);
    assert Fragments(all)[1..] == Fragments(ds);
    ConcatUnfold(Fragments(all));
    match p {
      case PendingText(i, buf, inside) =>
        var f := Feed(buf + frag, inside);
        var rest := PushAll(f.buf, f.inside, Fragments(ds));
        PushFirst(buf, inside, Fragments(all));
        GlyphsJoin(f.out, rest.out);
        assert v.said == u.said + Glyphs(f.out) && Grown(p, all, after, Glyphs(f.out) + out);
      case PendingTool(i, id, name, json) =>
        assert json + frag + Concat(Fragments(ds)) == json + (frag + Concat(Fragments(ds)));
        assert u.said == u.said + [] && Grown(p, all, after, [] + out);
      case PendingThinking(i, t, s) =>
        assert t + frag + Concat(Fragments(ds)) == t + (frag + Concat(Fragments(ds)));
        assert d.UpSignatureDelta? ==> frag == "" && t + frag == t;
        assert u.said == u.said + [] && Grown(p, all, after, [] + out);
      case _ =>
    }
  }

  lemma HearOn(u: Upstream, e: UpEvent, rest: seq<UpEvent>, parse: string -> Option<Value>)
    ensures Hear(u, e, parse).Some? ==> HearAll(u, [e] + rest, parse) == HearAll(Hear(u, e, parse).value, rest, parse)
  {
    hide Hear;
    assert ([e] + rest)[0] == e && ([e] + rest)[1..] == rest;
  }

  /** The deltas of a block, one by one. */
  lemma {:induction false} DeltasHeard(u: Upstream, i: nat, ds: seq<UpDelta>, tail: seq<UpEvent>,
                                       parse: string -> Option<Value>) returns (v: Upstream, out: seq<Item>)
    requires u.phase.Streaming? && !u.pending.Nothing? && u.pending.index == i && PendingSuits(u.pending, ds)
    ensures HearAll(u, DeltaEvents(i, ds) + tail, parse) == HearAll(v, tail, parse)
    ensures Grown(u.pending, ds, v.pending, out)
    ensures v.phase.Streaming? && v.used == u.used && v.said == u.said + out
    decreases |ds|
  {
    hide HearAll, HearDelta, Grown, PendingSuits;
    var events := DeltaEvents(i, ds) + tail;
    if ds == [] {
      v, out := u, [];
      assert events == tail;
      GrownNothing(u.pending);
      assert u.said + [] == u.said;
    } else {
      assert events == [UpBlockDelta(i, ds[0])] + (DeltaEvents(i, ds[1..]) + tail);
      HearOn(u, UpBlockDelta(i, ds[0]), DeltaEvents(i, ds[1..]) + tail, parse);
      assert ds == [ds[0]] + ds[1..];
      DeltaKeeps(u, i, ds[0], ds[1..]);
      var next := HearDelta(u, i, ds[0]).value;
      var rest;
      v, rest := DeltasHeard(next, i, ds[1..], tail, parse);
      GrownFirst(u.pending, ds[0], ds[1..], u, next, v.pending, rest);
      var first :| next.said == u.said + first && Grown(u.pending, ds, v.pending, first + rest);
      out := first + rest;
      assert u.said + first + rest == u.said + (first + rest);
    }
  }

  lemma GrownNothing(p: Pending)
    ensures Grown(p, [], p, [])
  {
    assert Fragments([]) == [] && Concat(Fragments([])) == "";
    if p.PendingText? {
      assert Glyphs([]) == [];
    } else if p.PendingTool? {
      assert p.json + "" == p.json;
    } else if p.PendingThinking? {
      assert p.text + "" == p.text;
    }
  }

  lemma DeltaKeeps(u: Upstream, i: nat, d: UpDelta, ds: seq<UpDelta>)
    requires u.phase.Streaming? && !u.pending.Nothing? && u.pending.index == i && PendingSuits(u.pending, [d] + ds)
    ensures HearDelta(u, i, d).Some?
    ensures var v := HearDelta(u, i, d).value;
            && v.phase.Streaming? && v.used == u.used && !v.pending.Nothing? && v.pending.index == i
            && PendingSuits(v.pending, ds)
  {
    hide Feed;
    var all := [d] + ds;
    assert d in all && forall x <- ds :: x in all;
  }

  /** A run of pushes and the end of the text make a whole run. */
  lemma {:induction false} PushesThenEnd(buf: string, inside: bool, frags: seq<string>)
    ensures var f := PushAll(buf, inside, frags);
            Run(buf, inside, frags).out == f.out + EndOfText(f.buf, f.inside).out
    decreases |frags|
  {
    hide Feed, EndOfText;
    if frags != [] {
      var f := Feed(buf + frags[0], inside);
      PushesThenEnd(f.buf, f.inside, frags[1..]);
    }
  }

  /** What is said of a block when it stops, deltas and end together. */
  lemma StopSays(b: Sent, after: Pending, out: seq<Item>, parse: string -> Option<Value>)
    requires Grown(Opening(b.index, b.head), b.deltas, after, out)
    ensures out + Closing(after, parse) == Says(b, parse)
  {
    hide PushAll, Run, EndOfText;
    match b.head {
      case UpText(_) =>
        var f := PushAll("", false, Fragments(b.deltas));
        PushesThenEnd("", false, Fragments(b.deltas));
        GlyphsJoin(f.out, EndOfText(f.buf, f.inside).out);
      case UpToolUse(_, _, _) =>
        assert "" + Concat(Fragments(b.deltas)) == Concat(Fragments(b.deltas));
      case _ =>
    }
  }

  lemma Opens(b: Sent)
    requires AllSuit(b.head, b.deltas)
    ensures var p := Opening(b.index, b.head); !p.Nothing? && p.index == b.index && PendingSuits(p, b.deltas)
  {
  }

  /** A block up to its last delta. */
  lemma BlockBegins(u: Upstream, b: Sent, tail: seq<UpEvent>, parse: string -> Option<Value>)
    returns (v: Upstream, out: seq<Item>)
    requires u.phase.Streaming? && u.pending.Nothing? && b.index !in u.used && AllSuit(b.head, b.deltas)
    ensures HearAll(u, Begun(b) + tail, parse) == HearAll(v, tail, parse)
    ensures Grown(Opening(b.index, b.head), b.deltas, v.pending, out)
    ensures v.phase.Streaming? && v.used == u.used + {b.index} && v.said == u.said + out
  {
    var start := UpBlockStart(b.index, b.head);
    var rest := DeltaEvents(b.index, b.deltas) + tail;
    var next := Hear(u, start, parse).value;
    assert Begun(b) + tail == [start] + rest;
    HearOn(u, start, rest, parse);
    Opens(b);
    assert next.pending == Opening(b.index, b.head) && next.said == u.said && next.phase.Streaming?;
    hide Hear, Opening, PendingSuits, Grown, HearAll;
    v, out := DeltasHeard(next, b.index, b.deltas, tail, parse);
  }

  lemma NoneOfAll(said: seq<Item>, tail: seq<UpEvent>, parse: string -> Option<Value>)
    ensures Written([]) + tail == tail && said + AllSay([], parse) == said
  {
  }

  lemma SaidJoin(a: seq<Item>, b: seq<Item>, c: seq<Item>)
    ensures a + b + c == a + (b + c)
  {
  }

  lemma FirstOfAll(blocks: seq<Sent>, tail: seq<UpEvent>, parse: string -> Option<Value>)
    requires blocks != []
    ensures AllSay(blocks, parse) == Says(blocks[0], parse) + AllSay(blocks[1..], parse)
    ensures Written(blocks) + tail
         == Begun(blocks[0]) + ([UpBlockStop(blocks[0].index)] + (Written(blocks[1..]) + tail))
  {
    hide Says, Begun;
  }

  /** Blocks in order: what they say is what each of them says. */
  lemma {:induction false} BlocksSay(u: Upstream, blocks: seq<Sent>, tail: seq<UpEvent>, parse: string -> Option<Value>)
    returns (v: Upstream)
    requires u.phase.Streaming? && u.pending.Nothing? && Fresh(blocks, u.used)
    ensures HearAll(u, Written(blocks) + tail, parse) == HearAll(v, tail, parse)
    ensures v.phase.Streaming? && v.pending.Nothing? && v.said == u.said + AllSay(blocks, parse)
    decreases |blocks|
  {
    hide HearAll, Says, Begun, AllSuit, Fresh, Written, AllSay;
    if blocks == [] {
      v := u;
      NoneOfAll(u.said, tail, parse);
    } else {
      var b, rest := blocks[0], Written(blocks[1..]) + tail;
      FirstOfAll(blocks, tail, parse);
      FreshFirst(blocks, u.used);
      var next := BlockSays(u, b, rest, parse);
      v := BlocksSay(next, blocks[1..], tail, parse);
      SaidJoin(u.said, Says(b, parse), AllSay(blocks[1..], parse));
    }
  }

  lemma StopHeard(w: Upstream, i: nat, parse: string -> Option<Value>)
    requires w.phase.Streaming? && !w.pending.Nothing? && w.pending.index == i
    ensures Hear(w, UpBlockStop(i), parse) == Some(w.(pending := Nothing, said := w.said + Closing(w.pending, parse)))
  {
    hide Closing;
  }

  /** A whole block. */
  lemma BlockSays(u: Upstream, b: Sent, rest: seq<UpEvent>, parse: string -> Option<Value>) returns (v: Upstream)
    requires u.phase.Streaming? && u.pending.Nothing? && b.index !in u.used && AllSuit(b.head, b.deltas)
    ensures HearAll(u, Begun(b) + ([UpBlockStop(b.index)] + rest), parse) == HearAll(v, rest, parse)
    ensures v.phase.Streaming? && v.pending.Nothing? && v.used == u.used + {b.index}
    ensures v.said == u.said + Says(b, parse)
  {
    var stop := UpBlockStop(b.index);
    var w, out := BlockBegins(u, b, [stop] + rest, parse);
    StopSays(b, w.pending, out, parse);
    StillPending(b, w.pending, out);
    hide Says, Closing, Grown, Opening, Begun, HearAll, Hear, AllSuit;
    StopHeard(w, b.index, parse);
    v := Hear(w, stop, parse).value;
    HearOn(w, stop, rest, parse);
    assert u.said + out + Closing(w.pending, parse) == u.said + (out + Closing(w.pending, parse));
  }

  /** Blocks with indices of their own, each with deltas that suit it. */
  predicate Fresh(blocks: seq<Sent>, used: set<nat>) {
    && (forall b <- blocks :: b.index !in used && AllSuit(b.head, b.deltas))
    && (forall j, k | 0 <= j < k < |blocks| :: blocks[j].index != blocks[k].index)
  }

  lemma FreshFirst(blocks: seq<Sent>, used: set<nat>)
    requires Fresh(blocks, used) && blocks != []
    ensures blocks[0].index !in used && AllSuit(blocks[0].head, blocks[0].deltas)
    ensures Fresh(blocks[1..], used + {blocks[0].index})
  {
    hide AllSuit;
    assert blocks[0] in blocks;
    forall b <- blocks[1..] ensures b.index !in used + {blocks[0].index} && AllSuit(b.head, b.deltas) {
      var k :| 0 <= k < |blocks[1..]| && blocks[1..][k] == b;
      assert b == blocks[k + 1];
    }
  }

  lemma StillPending(b: Sent, after: Pending, out: seq<Item>)
    requires Grown(Opening(b.index, b.head), b.deltas, after, out)
    ensures !after.Nothing? && after.index == b.index
  {
    hide PushAll, Fragments, Signature;
  }

  // ---------------------------------------------------------------------------------------------
  // Whole messages
  // ---------------------------------------------------------------------------------------------

  /** A message: its start, its blocks, and whatever reports come before its stop. */
  function Message(start: UpEvent, blocks: seq<Sent>, reports: seq<UpEvent>): seq<UpEvent> {
    [start] + (Written(blocks) + (reports + [UpMessageStop]))
  }

  /** Reports, pings and errors change nothing that was said. */
  lemma {:induction false} ReportsSayNothing(u: Upstream, reports: seq<UpEvent>, parse: string -> Option<Value>)
    requires u.phase.Streaming? && forall e <- reports :: e.UpMessageDelta? || e.UpPing? || e.UpError?
    ensures HearAll(u, reports + [UpMessageStop], parse) == Some(u.(phase := Ended))
    decreases |reports|
  {
    var events := reports + [UpMessageStop];
    if reports == [] {
      assert events == [UpMessageStop] && events[1..] == [];
    } else {
      assert events[0] == reports[0] && events[0] in reports && events[1..] == reports[1..] + [UpMessageStop];
      ReportsSayNothing(u, reports[1..], parse);
    }
  }

  /** Every message is heard, and its reply is what its blocks say, block by block; when that is nothing, it is what
      was told of each block. */
  lemma MessageArrives(start: UpEvent, blocks: seq<Sent>, reports: seq<UpEvent>, parse: string -> Option<Value>)
    requires start.UpMessageStart? && Fresh(blocks, {})
    requires forall e <- reports :: e.UpMessageDelta? || e.UpPing? || e.UpError?
    ensures var events := Message(start, blocks, reports);
            && WellFormed(events, parse)
            && HearAll(QUIET, events, parse).value.said == AllSay(blocks, parse)
            && (Assemble(AllSay(blocks, parse)) != [] ==>
                  Reply(events, HearAll(QUIET, events, parse).value.said, parse) == Ok(Assemble(AllSay(blocks, parse))))
  {
    var tail := reports + [UpMessageStop];
    var rest := Written(blocks) + tail;
    var u := QUIET.(phase := Streaming);
    var events := [start] + rest;
    assert events[0] == start && events[1..] == rest;
    assert HearAll(QUIET, events, parse) == HearAll(u, rest, parse);
    var v := BlocksSay(u, blocks, tail, parse);
    ReportsSayNothing(v, reports, parse);
    assert [] + AllSay(blocks, parse) == AllSay(blocks, parse);
  }

  // ---------------------------------------------------------------------------------------------
  // Messages that break off
  // ---------------------------------------------------------------------------------------------

  /** What was told of a block. */
  function StateOf(b: Sent): BlockState {
    var joined := Concat(Fragments(b.deltas));
    match b.head
    case UpText(t) => TextState(t + joined)
    case UpToolUse(id, name, _) => ToolState(id, name, joined)
    case UpThinking(t, s) => ThinkingState(t + joined, Signature(s, b.deltas))
    case UpImage => ImageState
  }

  lemma {:induction false} ConcatSnoc(frags: seq<string>, f: string)
    ensures Concat(frags + [f]) == Concat(frags) + f
  {
    if frags == [] {
      assert frags + [f] == [f] && [f][1..] == [] && f + "" == f;
    } else {
      assert (frags + [f])[1..] == frags[1..] + [f];
      ConcatSnoc(frags[1..], f);
      assert frags[0] + (Concat(frags[1..]) + f) == frags[0] + Concat(frags[1..]) + f;
    }
  }

  lemma FragmentsSnoc(ds: seq<UpDelta>, d: UpDelta)
    ensures Concat(Fragments(ds + [d])) == Concat(Fragments(ds)) + Fragment(d)
  {
    assert Fragments(ds + [d]) == Fragments(ds) + [Fragment(d)];
    ConcatSnoc(Fragments(ds), Fragment(d));
  }

  lemma {:induction false} SignatureSnoc(s: Option<string>, ds: seq<UpDelta>, d: UpDelta)
    ensures Signature(s, ds + [d]) == if d.UpSignatureDelta? then Some(d.signature) else Signature(s, ds)
    decreases |ds|
  {
    if ds == [] {
      assert ds + [d] == [d] && [d][1..] == [];
    } else {
      assert (ds + [d])[1..] == ds[1..] + [d];
      SignatureSnoc(if ds[0].UpSignatureDelta? then Some(ds[0].signature) else s, ds[1..], d);
    }
  }

  lemma StateSnoc(index: nat, head: UpBlock, ds: seq<UpDelta>, d: UpDelta)
    requires Suits(head, d)
    ensures StateOf(Sent(index, head, ds + [d])) == StateAfter(StateOf(Sent(index, head, ds)), d)
  {
    FragmentsSnoc(ds, d);
    var joined, f := Concat(Fragments(ds)), Fragment(d);
    match head {
      case UpText(t) => assert t + (joined + f) == t + joined + f;
      case UpThinking(t, s) =>
        SignatureSnoc(s, ds, d);
        assert t + (joined + f) == t + joined + f;
        assert joined + "" == joined;
      case _ =>
    }
  }

  /** Of a message with one block nothing is told but that block. */
  lemma {:induction false} OneBlockTold(start: UpEvent, b: Sent, i: nat)
    requires start.UpMessageStart? && AllSuit(b.head, b.deltas)
    ensures var events := [start] + Begun(b);
            Told(events, i) == (if i == b.index then Some(StateOf(b)) else None) && Width(events) == b.index + 1
    decreases |b.deltas|
  {
    var events := [start] + Begun(b);
    hide StateAfter, StateOf;
    if b.deltas == [] {
      StartTold(start, b, i);
    } else {
      var n := |b.deltas| - 1;
      var init := b.(deltas := b.deltas[..n]);
      var d := b.deltas[n];
      assert events == [start] + Begun(init) + [UpBlockDelta(b.index, d)];
      assert d in b.deltas && b.deltas == init.deltas + [d];
      OneBlockTold(start, init, i);
      StateSnoc(b.index, b.head, init.deltas, d);
      assert events[..|events| - 1] == [start] + Begun(init);
    }
  }

  lemma StartTold(start: UpEvent, b: Sent, i: nat)
    requires start.UpMessageStart? && b.deltas == []
    ensures var events := [start] + Begun(b);
            Told(events, i) == (if i == b.index then Some(StateOf(b)) else None) && Width(events) == b.index + 1
  {
    var events := [start] + Begun(b);
    assert events == [start] + [UpBlockStart(b.index, b.head)];
    assert events[..1] == [start] && [start][..0] == [];
    assert Told([], i) == None && Width([]) == 0;
    assert Told([start], i) == None && Width([start]) == 0;
    assert Fragments([]) == [] && Concat(Fragments([])) == "";
    match b.head {
      case UpText(t) => assert t + "" == t;
      case UpThinking(t, _) => assert t + "" == t;
      case _ =>
    }
  }

  lemma BlankFallsBack(parse: string -> Option<Value>)
    ensures FallbackOf(TextState(""), parse) == [TextBlock("")]
  {
  }

  lemma {:induction false} FallbackBehind(n: nat, b: BlockState, parse: string -> Option<Value>)
    ensures Fallback(Blank(n) + [b], parse) == Prepend(BlankBlocks(n), Fallback([b], parse))
  {
    var blocks := Blank(n) + [b];
    hide FallbackOf;
    if n == 0 {
      assert blocks == [b];
      PrependNone(Fallback([b], parse));
    } else {
      assert blocks[0] == TextState("") && blocks[1..] == Blank(n - 1) + [b];
      FallbackBehind(n - 1, b, parse);
      BlankFallsBack(parse);
      PrependTwice([TextBlock("")], BlankBlocks(n - 1), Fallback([b], parse));
      assert [TextBlock("")] + BlankBlocks(n - 1) == BlankBlocks(n);
    }
  }

  /** What a broken-off block comes to: its text, its thought, or its call; a call whose input does not parse is an
      error. */
  function Salvaged(b: Sent, parse: string -> Option<Value>): Result<seq<ContentBlock>, ProviderError> {
    var joined := Concat(Fragments(b.deltas));
    match b.head
    case UpText(t) => Ok([TextBlock(t + joined)])
    case UpToolUse(id, name, _) =>
      if joined != "" && parse(joined).None? then Err(Internal("stream decode error: tool_use partial_json invalid"))
      else Ok([ToolUse(id, name, if joined == "" then Obj([]) else parse(joined).value)])
    case UpThinking(t, s) => Ok([Thinking(t + joined, Signature(s, b.deltas))])
    case UpImage => Ok([])
  }

  lemma SalvagedFallback(b: Sent, parse: string -> Option<Value>)
    ensures Fallback([StateOf(b)], parse) == Salvaged(b, parse)
  {
    var s := StateOf(b);
    assert [s][1..] == [];
    assert Fallback([], parse) == Ok([]);
    assert forall c: seq<ContentBlock> :: c + [] == c;
  }

  /** A message that breaks off inside its only block, before anything was said, is completed from what was told of
      that block, behind an empty text for each index that was skipped. */
  lemma CutOff(start: UpEvent, b: Sent, parse: string -> Option<Value>)
    requires start.UpMessageStart? && AllSuit(b.head, b.deltas)
    ensures var events := [start] + Begun(b);
            && WellFormed(events, parse)
            && var said := HearAll(QUIET, events, parse).value.said;
               && (!b.head.UpText? ==> Assemble(said) == [])
               && (Assemble(said) == [] ==>
                     Reply(events, said, parse) == Prepend(BlankBlocks(b.index), Salvaged(b, parse)))
  {
    var events := [start] + Begun(b);
    var u := QUIET.(phase := Streaming);
    assert events[0] == start && events[1..] == Begun(b) && Begun(b) + [] == Begun(b);
    assert HearAll(QUIET, events, parse) == HearAll(u, Begun(b), parse);
    var v, out := BlockBegins(u, b, [], parse);
    assert HearAll(v, [], parse) == Some(v) && [] + out == out;
    hide HearAll, Told, Width, StateOf, Fallback, Salvaged;
    OneBlockTold(start, b, 0);
    forall i: nat | i <= b.index ensures AllTold(events)[i] == (Blank(b.index) + [StateOf(b)])[i] {
      OneBlockTold(start, b, i);
    }
    assert AllTold(events) == Blank(b.index) + [StateOf(b)];
    FallbackBehind(b.index, StateOf(b), parse);
    SalvagedFallback(b, parse);
  }
}
