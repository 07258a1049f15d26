/** The tool calls of an OpenAI reply in closed form: one for every upstream index, in the order in which the
    indices first came up, however text and the deltas of parallel calls are interleaved
    (crates/provider-openai/src/stream.rs). */
module OpenAiCalls {
  import opened Base
  import opened Fence
  import opened Spp
  import opened OpenAi

  /** The calls among the parts of a reply. */
  function Calls(parts: seq<Part>): (calls: seq<Part>)
    ensures forall c <- calls :: c.Call?
  {
    if parts == [] then []
    else
      var last := parts[|parts| - 1];
      Calls(parts[..|parts| - 1]) + if last.Call? then [last] else []
  }

  /** The upstream indices in the order in which they first came up. */
  function Seen(hs: seq<Heard>): seq<nat> {
    if hs == [] then []
    else
      var before, h := Seen(hs[..|hs| - 1]), hs[|hs| - 1];
      if h.Delta? && h.call.index !in before then before + [h.call.index] else before
  }

  /** The delta that started the call. */
  function First(hs: seq<Heard>, index: nat): Option<DeltaToolCall> {
    if hs == [] then None
    else
      var before, h := First(hs[..|hs| - 1], index), hs[|hs| - 1];
      if before.None? && h.Delta? && h.call.index == index then Some(h.call) else before
  }

  /** The arguments of all deltas with this index, joined. */
  function Json(hs: seq<Heard>, index: nat): string {
    if hs == [] then ""
    else
      var before, h := Json(hs[..|hs| - 1], index), hs[|hs| - 1];
      if h.Delta? && h.call.index == index then before + ArgsOf(h.call) else before
  }

  /** The call with this index: identity from its first delta, arguments from all of them. */
  function CallHeard(hs: seq<Heard>, index: nat): Part {
    var d := GetOr(First(hs, index), DeltaToolCall(index, None, None));
    Call(index, GetOr(d.id, ""), NameOf(d), Json(hs, index))
  }

  function CallsHeard(hs: seq<Heard>): (r: seq<Part>)
    ensures |r| == |Seen(hs)|
    ensures forall k | 0 <= k < |r| :: r[k] == CallHeard(hs, Seen(hs)[k])
  {
    seq(|Seen(hs)|, k requires 0 <= k < |Seen(hs)| => CallHeard(hs, Seen(hs)[k]))
  }

  predicate Unique(parts: seq<Part>) {
    forall i, j | 0 <= i < j < |parts| && parts[i].Call? && parts[j].Call? :: parts[i].index != parts[j].index
  }

  lemma {:induction false} SeenOnce(hs: seq<Heard>)
    ensures forall i, j | 0 <= i < j < |Seen(hs)| :: Seen(hs)[i] != Seen(hs)[j]
    ensures forall index: nat :: index in Seen(hs) <==> First(hs, index).Some?
    ensures forall index: nat :: index !in Seen(hs) ==> Json(hs, index) == ""
  {
    hide ArgsOf;
    if hs != [] {
      SeenOnce(hs[..|hs| - 1]);
    }
  }

  lemma CallsSnoc(parts: seq<Part>, p: Part)
    ensures Calls(parts + [p]) == Calls(parts) + if p.Call? then [p] else []
  {
    assert (parts + [p])[..|parts|] == parts;
  }

  /** Changing one call changes that call. */
  lemma {:induction false} CallsUpdate(parts: seq<Part>, i: nat, p: Part)
    requires i < |parts| && parts[i].Call? && p.Call? && p.index == parts[i].index && Unique(parts)
    ensures |Calls(parts[i := p])| == |Calls(parts)| && Unique(parts[i := p])
    ensures forall k | 0 <= k < |Calls(parts)| ::
      Calls(parts[i := p])[k] == if Calls(parts)[k].index == p.index then p else Calls(parts)[k]
  {
    var n := |parts| - 1;
    var init, last := parts[..n], parts[n];
    assert parts == init + [last];
    CallsSnoc(init, last);
    if i == n {
      assert parts[i := p] == init + [p];
      CallsSnoc(init, p);
      CallsAreParts(init, p.index);
    } else {
      assert parts[i := p] == init[i := p] + [last];
      CallsSnoc(init[i := p], last);
      CallsUpdate(init, i, p);
    }
  }

  lemma {:induction false} CallsAreParts(parts: seq<Part>, index: nat)
    ensures (forall j | 0 <= j < |parts| :: parts[j].Call? ==> parts[j].index != index)
       <==> forall c <- Calls(parts) :: c.index != index
  {
    if parts != [] {
      var n := |parts| - 1;
      CallsAreParts(parts[..n], index);
      assert parts == parts[..n] + [parts[n]];
      assert forall j | 0 <= j < n :: parts[..n][j] == parts[j];
    }
  }

  /** Text leaves the calls alone. */
  lemma CallsOfText(parts: seq<Part>, html: bool, s: string)
    requires Unique(parts)
    ensures Calls(HearText(parts, html, s)) == Calls(parts) && Unique(HearText(parts, html, s))
  {
    var i := LastStream(parts);
    if i.Some? && parts[i.value].html == html {
      StreamUpdate(parts, i.value, Stream(html, parts[i.value].text + s));
    } else {
      CallsSnoc(parts, Stream(html, s));
    }
  }

  lemma {:induction false} StreamUpdate(parts: seq<Part>, i: nat, p: Part)
    requires i < |parts| && parts[i].Stream? && p.Stream?
    ensures Calls(parts[i := p]) == Calls(parts)
  {
    var n := |parts| - 1;
    var init, last := parts[..n], parts[n];
    assert parts == init + [last];
    CallsSnoc(init, last);
    if i == n {
      assert parts[i := p] == init + [p];
      CallsSnoc(init, p);
    } else {
      assert parts[i := p] == init[i := p] + [last];
      CallsSnoc(init[i := p], last);
      StreamUpdate(init, i, p);
    }
  }

  lemma {:induction false} NotFound(parts: seq<Part>, index: nat)
    ensures FindCall(parts, index).None? <==> forall c <- Calls(parts) :: c.index != index
  {
    if parts != [] {
      NotFound(parts[..|parts| - 1], index);
    }
  }

  lemma HeardSnoc(hs: seq<Heard>, h: Heard, index: nat)
    ensures Seen(hs + [h]) == if h.Delta? && h.call.index !in Seen(hs) then Seen(hs) + [h.call.index] else Seen(hs)
    ensures First(hs + [h], index)
         == if First(hs, index).None? && h.Delta? && h.call.index == index then Some(h.call) else First(hs, index)
    ensures Json(hs + [h], index)
         == if h.Delta? && h.call.index == index then Json(hs, index) + ArgsOf(h.call) else Json(hs, index)
  {
    hide ArgsOf;
    assert (hs + [h])[..|hs|] == hs;
  }

  /** The calls of a reply: pairwise distinct upstream indices, and every call has the identity of the first and
      the joined arguments of all deltas with its index. */
  lemma {:induction false} CallsInClosedForm(hs: seq<Heard>)
    ensures Calls(HearAll([], hs)) == CallsHeard(hs) && Unique(HearAll([], hs))
  {
    hide Calls, Seen, First, Json, HearText, FindCall, ArgsOf, NameOf, Unique;
    if hs == [] {
      NoCalls();
    } else {
      var n := |hs| - 1;
      var before, h := hs[..n], hs[n];
      var parts := HearAll([], before);
      CallsInClosedForm(before);
      assert hs == before + [h];
      HeardSnoc(before, h, 0);
      match h {
        case Said(sym) =>
          CallsOfText(parts, sym.html, [sym.c]);
          forall k | 0 <= k < |Seen(hs)| ensures CallsHeard(hs)[k] == CallsHeard(before)[k] {
            HeardSnoc(before, h, Seen(hs)[k]);
          }
        case Delta(tc) =>
          DeltaHeard(before, parts, tc);
      }
    }
  }

  lemma NoCalls()
    ensures Calls([]) == [] && Seen([]) == [] && Unique([])
  {
  }

  lemma DeltaHeard(before: seq<Heard>, parts: seq<Part>, tc: DeltaToolCall)
    requires Calls(parts) == CallsHeard(before) && Unique(parts)
    ensures Calls(HearCall(parts, tc)) == CallsHeard(before + [Delta(tc)]) && Unique(HearCall(parts, tc))
  {
    hide Calls, Seen, First, Json, HearText, FindCall, ArgsOf, NameOf, Unique;
    var hs, i := before + [Delta(tc)], FindCall(parts, tc.index);
    SeenOnce(before);
    NotFound(parts, tc.index);
    HeardSnoc(before, Delta(tc), tc.index);
    SeenCalls(before, tc.index);
    if i.Some? {
      var p := parts[i.value].(json := parts[i.value].json + ArgsOf(tc));
      FoundIsHeard(before, parts, i.value);
      CallsUpdate(parts, i.value, p);
      forall k | 0 <= k < |Seen(hs)| ensures CallsHeard(hs)[k] == Calls(parts[i.value := p])[k] {
        HeardSnoc(before, Delta(tc), Seen(hs)[k]);
      }
    } else {
      var p := Call(tc.index, GetOr(tc.id, ""), NameOf(tc), ArgsOf(tc));
      CallsSnoc(parts, p);
      UniqueSnoc(parts, p);
      forall k | 0 <= k < |Seen(before)| ensures CallsHeard(hs)[k] == CallsHeard(before)[k] {
        HeardSnoc(before, Delta(tc), Seen(before)[k]);
      }
      assert "" + ArgsOf(tc) == ArgsOf(tc);
    }
  }

  lemma SeenCalls(hs: seq<Heard>, index: nat)
    ensures index in Seen(hs) <==> exists c <- CallsHeard(hs) :: c.index == index
  {
    hide Seen, First, Json, NameOf;
    if index in Seen(hs) {
      var k :| 0 <= k < |Seen(hs)| && Seen(hs)[k] == index;
      assert CallsHeard(hs)[k] in CallsHeard(hs);
    }
  }

  /** The part that holds a call is what was heard of its index. */
  lemma FoundIsHeard(hs: seq<Heard>, parts: seq<Part>, i: nat)
    requires Calls(parts) == CallsHeard(hs) && i < |parts| && parts[i].Call?
    ensures parts[i] == CallHeard(hs, parts[i].index)
  {
    hide Seen, First, Json, NameOf;
    PartIsCall(parts, i);
    var k :| 0 <= k < |Calls(parts)| && Calls(parts)[k] == parts[i];
  }

  lemma {:induction false} PartIsCall(parts: seq<Part>, i: nat)
    requires i < |parts| && parts[i].Call?
    ensures parts[i] in Calls(parts)
  {
    if i < |parts| - 1 {
      PartIsCall(parts[..|parts| - 1], i);
    }
  }

  lemma UniqueSnoc(parts: seq<Part>, p: Part)
    requires Unique(parts) && p.Call? && forall c <- Calls(parts) :: c.index != p.index
    ensures Unique(parts + [p])
  {
    CallsAreParts(parts, p.index);
  }
}
