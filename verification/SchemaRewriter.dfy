/** The rewriter as it runs: loops that fill a map, proved against the functions of `Schema`. */
module SchemaRewriter {
  import opened Base
  import opened Schema
  import opened SchemaClean
  import opened SchemaMeaning

  /** Insert every entry in turn, replacing what is there. */
  method InsertEach(es: seq<Entry>) returns (defs: seq<Entry>)
    ensures defs == InsertAll([], es) && Distinct(defs)
    ensures forall k :: Get(defs, k) == LastValue(es, k)
    ensures Distinct(es) ==> defs == es
  {
    hide Insert, Get, LastValue, Distinct;
    defs := [];
    for k := 0 to |es|
      invariant defs == InsertAll([], es[..k])
    {
      assert es[..k + 1][..k] == es[..k];
      defs := Insert(defs, es[k].key, es[k].value);
    }
    assert es[..|es|] == es;
    InsertAllMeans(es);
  }

  lemma InsertAllMeans(es: seq<Entry>)
    ensures Distinct(InsertAll([], es)) && (Distinct(es) ==> InsertAll([], es) == es)
    ensures forall k :: Get(InsertAll([], es), k) == LastValue(es, k)
  {
    forall k ensures Get(InsertAll([], es), k) == LastValue(es, k) {
      InsertAllLast([], es, k);
    }
    InsertAllDistinct([], es);
    hide InsertAll;
    if Distinct(es) {
      InsertAllSame(es);
    }
  }

  /** The value of the last entry with this key. */
  function LastValue(es: seq<Entry>, k: string): Option<Value> {
    if es == [] then None
    else if es[|es| - 1].key == k then Some(es[|es| - 1].value)
    else LastValue(es[..|es| - 1], k)
  }

  /** Under every key the last value inserted counts. */
  lemma {:induction false} InsertAllLast(es: seq<Entry>, more: seq<Entry>, k: string)
    ensures Get(InsertAll(es, more), k) == if LastValue(more, k).Some? then LastValue(more, k) else Get(es, k)
  {
    hide Insert, Get;
    if more != [] {
      var init, last := more[..|more| - 1], more[|more| - 1];
      InsertAllLast(es, init, k);
      if last.key != k {
        GetInsertOther(InsertAll(es, init), last.key, last.value, k);
      }
    }
  }

  lemma {:induction false} InsertAllDistinct(es: seq<Entry>, more: seq<Entry>)
    requires Distinct(es)
    ensures Distinct(InsertAll(es, more))
  {
    hide Insert, Distinct;
    if more != [] {
      InsertAllDistinct(es, more[..|more| - 1]);
      InsertDistinct(InsertAll(es, more[..|more| - 1]), more[|more| - 1].key, more[|more| - 1].value);
    }
  }

  lemma {:induction false} InsertAllSame(es: seq<Entry>)
    requires Distinct(es)
    ensures InsertAll([], es) == es
  {
    hide Insert, Get;
    if es != [] {
      var n := |es| - 1;
      InsertAllSame(es[..n]);
      KeyIsNew(es, n);
      InsertNew(es[..n], es[n].key, es[n].value);
      assert es == es[..n] + [es[n]];
    }
  }

  /** Insert every entry whose key is still missing. */
  method AddMissing(base: seq<Entry>, es: seq<Entry>) returns (out: seq<Entry>)
    ensures out == OrInsertAll(base, es)
  {
    hide OrInsert;
    out := base;
    for k := 0 to |es|
      invariant out == OrInsertAll(base, es[..k])
    {
      assert es[..k + 1][..k] == es[..k];
      out := OrInsert(out, es[k].key, es[k].value);
    }
    assert es[..|es|] == es;
  }

  /** What a name means: its entry in `$defs` before its entry in `definitions`. */
  function Meant(schema: Value, name: string): Option<Value> {
    var first := LastValue(Members(schema, "$defs"), name);
    if first.Some? then first else Get(Members(schema, "definitions"), name)
  }

  /** A name stands for its entry in `$defs`, and only without one for its entry in `definitions`. */
  method ExtractDefs(schema: Value) returns (defs: seq<Entry>)
    ensures defs == Definitions(schema)
    ensures forall k :: Get(defs, k) == Meant(schema, k)
  {
    forall k ensures Get(Definitions(schema), k) == Meant(schema, k) {
      InsertAllLast([], Members(schema, "$defs"), k);
      OrInsertAllKeeps(InsertAll([], Members(schema, "$defs")), Members(schema, "definitions"), k);
      OrInsertAllAdds(InsertAll([], Members(schema, "$defs")), Members(schema, "definitions"), k);
    }
    hide Get, LastValue;
    defs := [];
    if !schema.Obj? {
      return;
    }
    var m := Get(schema.entries, "$defs");
    if m.Some? && m.value.Obj? {
      defs := InsertEach(m.value.entries);
    }
    m := Get(schema.entries, "definitions");
    if m.Some? && m.value.Obj? {
      defs := AddMissing(defs, m.value.entries);
    }
  }

  method RewriteType(value: Value, out: seq<Entry>) returns (out': seq<Entry>)
    ensures out' == Retyped(value, out)
  {
    if !value.Arr? {
      return Insert(out, "type", value);
    }
    var arr := value.items;
    var chosen: Option<Value> := None;
    var nullable := false;
    for k := 0 to |arr|
      invariant chosen == FirstNonNull(arr[..k])
      invariant nullable <==> Str("null") in arr[..k]
    {
      FirstNonNullSnoc(arr[..k], arr[k]);
      assert arr[..k + 1] == arr[..k] + [arr[k]];
      if arr[k] == Str("null") {
        nullable := true;
      } else if chosen.None? {
        chosen := Some(arr[k]);
      }
    }
    assert arr[..|arr|] == arr;
    out' := out;
    if chosen.Some? {
      out' := Insert(out', "type", chosen.value);
    }
    if nullable {
      out' := Insert(out', "nullable", Bool(true));
    }
  }

  lemma {:induction false} FirstNonNullSnoc(arr: seq<Value>, t: Value)
    ensures FirstNonNull(arr + [t]) ==
              if FirstNonNull(arr).Some? then FirstNonNull(arr) else if t == Str("null") then None else Some(t)
  {
    if arr != [] {
      assert (arr + [t])[1..] == arr[1..] + [t];
      FirstNonNullSnoc(arr[1..], t);
    } else {
      assert (arr + [t])[1..] == [];
    }
  }

  /** `retain`: drop the bare nulls. */
  method Retain(arr: seq<Value>) returns (kept: seq<Value>)
    ensures kept == Retained(arr)
  {
    hide IsBareNull;
    kept := [];
    for k := 0 to |arr|
      invariant kept == Retained(arr[..k])
    {
      assert arr[..k + 1][..k] == arr[..k];
      if !IsBareNull(arr[k]) {
        kept := kept + [arr[k]];
      }
    }
    assert arr[..|arr|] == arr;
  }

  method LiftNullFromAnyOf(out: seq<Entry>) returns (out': seq<Entry>)
    ensures out' == Lifted(out)
  {
    hide Get, Insert, Remove, OrInsert, OrInsertAll, Retained;
    out' := out;
    var anyOf := Get(out, "anyOf");
    if anyOf.None? || !anyOf.value.Arr? {
      return;
    }
    var arr := anyOf.value.items;
    var kept := Retain(arr);
    out' := Insert(out', "anyOf", Arr(kept));
    if |kept| != |arr| {
      out' := OrInsert(out', "nullable", Bool(true));
    }
    if |kept| == 0 {
      out' := Remove(out', "anyOf");
    } else if |kept| == 1 {
      out' := Remove(out', "anyOf");
      if kept[0].Obj? {
        out' := AddMissing(out', kept[0].entries);
      }
    }
  }

  method Walk(value: Value, defs: seq<Entry>, depth: nat) returns (r: Value)
    ensures r == Walked(value, defs, depth)
    decreases Left(depth), 2, 0
  {
    if depth > MAX_DEPTH {
      return Null;
    }
    match value {
      case Obj(es) =>
        r := WalkObject(es, defs, depth);
      case Arr(arr) =>
        var items := [];
        for k := 0 to |arr|
          invariant items == WalkedItems(arr[..k], defs, depth + 1)
        {
          assert arr[..k + 1][..k] == arr[..k];
          var v := Walk(arr[k], defs, depth + 1);
          items := items + [v];
        }
        assert arr[..|arr|] == arr;
        r := Arr(items);
      case _ =>
        r := value;
    }
  }

  method WalkObject(es: seq<Entry>, defs: seq<Entry>, depth: nat) returns (r: Value)
    requires depth <= MAX_DEPTH
    ensures r == WalkedObject(es, defs, depth)
    decreases Left(depth), 1, |es|
  {
    hide Lifted, Resolve;
    var reference := Get(es, "$ref");
    if reference.Some? && reference.value.Str? {
      var target := Resolve(reference.value.s, defs);
      if target.Some? {
        var resolved := Walk(target.value, defs, depth + 1);
        if resolved.Obj? {
          var map' := resolved.entries;
          for k := 0 to |es|
            invariant map' == Merged(resolved.entries, es[..k], defs, depth)
          {
            assert es[..k + 1][..k] == es[..k];
            if es[k].key == "$ref" {
              continue;
            }
            if Get(map', es[k].key).None? {
              var v := Walk(es[k].value, defs, depth + 1);
              map' := map' + [Entry(es[k].key, v)];
            }
          }
          assert es[..|es|] == es;
          resolved := Obj(map');
        }
        return resolved;
      }
      r := WalkObject(Remove(es, "$ref"), defs, depth);
      return;
    }
    var out := WalkEntries(es, defs, depth);
    out := LiftNullFromAnyOf(out);
    r := Obj(out);
  }

  method WalkEntries(es: seq<Entry>, defs: seq<Entry>, depth: nat) returns (out: seq<Entry>)
    requires depth <= MAX_DEPTH
    ensures out == WalkedEntries(es, defs, depth)
    decreases Left(depth), 0, |es|
  {
    hide WalkedEntry;
    out := [];
    for k := 0 to |es|
      invariant out == WalkedEntries(es[..k], defs, depth)
    {
      assert es[..k + 1][..k] == es[..k];
      out := WalkEntry(out, es[k], defs, depth);
    }
    assert es[..|es|] == es;
  }

  /** One keyword of an object without a reference. */
  method WalkEntry(acc: seq<Entry>, e: Entry, defs: seq<Entry>, depth: nat) returns (out: seq<Entry>)
    requires depth <= MAX_DEPTH
    ensures out == WalkedEntry(acc, e, defs, depth)
    decreases Left(depth), 0, 0
  {
    hide KeywordOf, Retyped, Walked, Insert;
    out := acc;
    match KeywordOf(e.key) {
      case Meta =>
      case Closed =>
      case Type =>
        out := RewriteType(e.value, out);
      case Const =>
        out := Insert(out, "enum", Arr([e.value]));
      case OneOf =>
        var v := Walk(e.value, defs, depth + 1);
        out := Insert(out, "anyOf", v);
      case _ =>
        var v := Walk(e.value, defs, depth + 1);
        out := Insert(out, e.key, v);
    }
  }

  /** The rewriter.  It computes `Sanitized`, so what it returns accepts every instance the schema
      accepts, for schemas in the fragment that unfold within the cap, and has nothing left that
      Gemini rejects. */
  method Sanitize(schema: Value) returns (out: Value)
    ensures out == Sanitized(schema)
    ensures var defs := Definitions(schema);
            CleanInput(schema, defs, true) && CleanDefs(defs) ==> Clean(out)
    ensures var defs := Definitions(schema);
            InFragment(schema, defs) && DefsInFragment(defs) && WithinCap(schema, defs, 0) ==>
              forall i, fuel, o :: Accepts(schema, i, defs, fuel, o) ==> Accepts(out, i, [], 0, Plainly(o))
  {
    hide Walked, InFragment, DefsInFragment, WithinCap, CleanInput, CleanDefs, Accepts, Clean;
    var defs := ExtractDefs(schema);
    out := Walk(schema, defs, 0);
    if out.Obj? {
      var es := out.entries;
      es := Remove(es, "$schema");
      es := Remove(es, "$defs");
      es := Remove(es, "definitions");
      es := Remove(es, "$id");
      es := Remove(es, "$comment");
      out := Obj(es);
    }
    if CleanInput(schema, defs, true) && CleanDefs(defs) {
      SanitizedIsClean(schema);
    }
    if InFragment(schema, defs) && DefsInFragment(defs) && WithinCap(schema, defs, 0) {
      forall i, fuel, o | Accepts(schema, i, defs, fuel, o)
        ensures Accepts(out, i, [], 0, Plainly(o))
      {
        SanitizeRelaxes(schema, i, fuel, o);
      }
    }
  }

  /** Outside the fragment the rewriting can narrow a schema: a property called `const` is taken for
      the keyword, and constrains a property called `enum` instead. */
  lemma PropertyNamesMatter(o: Oracle)
    requires forall es, i :: o.strict(es, i)
    ensures var instance := Obj([Entry("enum", Null)]);
            Accepts(ConstProperty(), instance, [], 0, o)
                && !Accepts(Sanitized(ConstProperty()), instance, [], 0, Plainly(o))
  {
    hide Sanitized, Accepts;
    ConstPropertyRewritten();
    ConstPropertyAccepts(o);
    EnumPropertyRejects(o);
  }

  /** Nor may an enum value look like a schema: its `const` is rewritten too, and the value is lost. */
  lemma EnumValuesMatter(o: Oracle)
    requires forall es, i :: o.strict(es, i)
    ensures var instance := Obj([Entry("const", Null)]);
            var schema := Obj([Entry("enum", Arr([instance]))]);
            Accepts(schema, instance, [], 0, o) && !Accepts(Sanitized(schema), instance, [], 0, Plainly(o))
  {
    KeywordTable();
    EnumValueRewritten();
    hide Sanitized, KeywordOf, Accepts;
    var instance, other := Obj([Entry("const", Null)]), Obj([Entry("enum", Arr([Null]))]);
    var schema, out := [Entry("enum", Arr([instance]))], [Entry("enum", Arr([other]))];
    OneKeyword(schema[0], instance, [], 0, o);
    OneKeyword(out[0], instance, [], 0, Plainly(o));
    assert instance.entries[0].key != other.entries[0].key;
  }

  lemma EnumValueRewritten()
    ensures Sanitized(Obj([Entry("enum", Arr([Obj([Entry("const", Null)])]))]))
         == Obj([Entry("enum", Arr([Obj([Entry("enum", Arr([Null]))])]))])
  {
    KeywordTable();
    hide KeywordOf, Walked, WalkedEntry;
    var e, f := Entry("const", Null), Entry("enum", Arr([Null]));
    EntryAlone(e, [], 2);
    OneEntry(e, f, [], 2);
    ItemWalks(Obj([e]), [], 1);
    var g, h := Entry("enum", Arr([Obj([e])])), Entry("enum", Arr([Obj([f])]));
    EntryAlone(g, [], 0);
    OneEntry(g, h, [], 0);
    assert Definitions(Obj([g])) == [];
    StripOne(h);
  }

  lemma EntryAlone(e: Entry, defs: seq<Entry>, depth: nat)
    requires depth <= MAX_DEPTH && KeywordOf(e.key) in {Const, Enum, Properties}
    ensures WalkedEntry([], e, defs, depth)
         == [if KeywordOf(e.key) == Const then Entry("enum", Arr([e.value]))
             else Entry(e.key, Walked(e.value, defs, depth + 1))]
  {
    hide KeywordOf, Walked;
  }

  lemma ItemWalks(item: Value, defs: seq<Entry>, depth: nat)
    requires depth <= MAX_DEPTH
    ensures Walked(Arr([item]), defs, depth) == Arr([Walked(item, defs, depth + 1)])
  {
    assert WalkedItems([item], defs, depth + 1) == [Walked(item, defs, depth + 1)];
  }

  lemma StripOne(e: Entry)
    requires KeywordOf(e.key) != Meta
    ensures Stripped([e]) == [e]
  {
    KeywordMeta();
    hide KeywordOf, Get, Remove;
    forall k | k in {"$schema", "$defs", "definitions", "$id", "$comment"} ensures Remove([e], k) == [e] {
      NoSuchKey([e], k);
      RemoveAbsent([e], k);
    }
  }

  lemma ConstPropertyAccepts(o: Oracle)
    requires forall es, i :: o.strict(es, i)
    ensures Accepts(ConstProperty(), Obj([Entry("enum", Null)]), [], 0, o)
  {
    KeywordTable();
    hide KeywordOf, Accepts;
    var instance, inner := Obj([Entry("enum", Null)]), Obj([Entry("const", Obj([]))]);
    assert inner.entries[0].key != instance.entries[0].key;
    assert Holds("properties", inner, instance, [], 0, o);
    OneKeyword(Entry("properties", inner), instance, [], 0, o);
  }

  lemma EnumPropertyRejects(o: Oracle)
    ensures !Accepts(Obj([Entry("properties", Obj([Entry("enum", Arr([Obj([])]))]))]), Obj([Entry("enum", Null)]), [],
                     0, Plainly(o))
  {
    KeywordTable();
    hide KeywordOf;
    var instance, bad := Obj([Entry("enum", Null)]), Obj([Entry("enum", Arr([Obj([])]))]);
    var out := [Entry("properties", bad)];
    assert !Accepts(bad.entries[0].value, instance.entries[0].value, [], 0, Plainly(o));
    assert !Holds("properties", bad, instance, [], 0, Plainly(o)) by {
      assert bad.entries[0].key == instance.entries[0].key;
    }
    assert !Holds(out[0].key, out[0].value, instance, [], 0, Plainly(o));
  }

  /** The schema with one property, called `const`, that may be anything. */
  function ConstProperty(): Value {
    Obj([Entry("properties", Obj([Entry("const", Obj([]))]))])
  }

  /** An object of one entry, neither a reference nor an `anyOf`, once rewritten. */
  lemma OneEntry(e: Entry, f: Entry, defs: seq<Entry>, depth: nat)
    requires depth <= MAX_DEPTH && e.key != "$ref" && f.key != "anyOf" && WalkedEntry([], e, defs, depth) == [f]
    ensures Walked(Obj([e]), defs, depth) == Obj([f])
  {
    hide WalkedEntry;
    assert [e][..0] == [];
    assert WalkedEntries([e], defs, depth) == [f];
    assert Get([e], "$ref").None? && Get([f], "anyOf").None?;
  }

  lemma ConstPropertyRewritten()
    ensures Sanitized(ConstProperty()) == Obj([Entry("properties", Obj([Entry("enum", Arr([Obj([])]))]))])
  {
    KeywordTable();
    hide KeywordOf, Walked, WalkedEntry;
    var inner, bad := Entry("const", Obj([])), Entry("enum", Arr([Obj([])]));
    EntryAlone(inner, [], 1);
    OneEntry(inner, bad, [], 1);
    EntryAlone(Entry("properties", Obj([inner])), [], 0);
    OneEntry(Entry("properties", Obj([inner])), Entry("properties", Obj([bad])), [], 0);
    StripOne(Entry("properties", Obj([bad])));
    assert Definitions(ConstProperty()) == [];
  }
}
