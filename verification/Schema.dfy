/** The JSON-Schema rewriter for Gemini (crates/provider-gemini/src/schema.rs). */
module Schema {
  import opened Base

  /** Cap on the depth of the walk, `$ref` resolutions included. */
  const MAX_DEPTH: nat := 32

  // ---------------------------------------------------------------------------------------------
  // Objects as entry lists
  // ---------------------------------------------------------------------------------------------

  function Get(es: seq<Entry>, k: string): (r: Option<Value>)
    ensures r.Some? ==> exists j :: 0 <= j < |es| && es[j] == Entry(k, r.value)
    ensures r.None? ==> forall j :: 0 <= j < |es| ==> es[j].key != k
  {
    if es == [] then None
    else if es[0].key == k then Some(es[0].value)
    else
      var r := Get(es[1..], k);
      assert r.Some? ==> exists j :: 0 <= j < |es| && es[j] == Entry(k, r.value) by {
        if r.Some? {
          var j :| 0 <= j < |es[1..]| && es[1..][j] == Entry(k, r.value);
          assert es[j + 1] == Entry(k, r.value);
        }
      }
      r
  }

  predicate Has(es: seq<Entry>, k: string) {
    exists j :: 0 <= j < |es| && es[j].key == k
  }

  /** Replace in place, or append. */
  function Insert(es: seq<Entry>, k: string, v: Value): (r: seq<Entry>)
    ensures Get(r, k) == Some(v)
    ensures forall j :: 0 <= j < |r| ==> r[j] == Entry(k, v) || r[j] in es
    ensures forall j :: 0 <= j < |es| && es[j].key != k ==> es[j] in r
  {
    if es == [] then [Entry(k, v)]
    else if es[0].key == k then [Entry(k, v)] + es[1..]
    else
      var t := Insert(es[1..], k, v);
      assert ([es[0]] + t)[1..] == t;
      [es[0]] + t
  }

  /** `entry(k).or_insert(v)`. */
  function OrInsert(es: seq<Entry>, k: string, v: Value): seq<Entry> {
    if Get(es, k).Some? then es else es + [Entry(k, v)]
  }

  function OrInsertAll(es: seq<Entry>, more: seq<Entry>): seq<Entry> {
    if more == [] then es else
      var last := more[|more| - 1];
      OrInsert(OrInsertAll(es, more[..|more| - 1]), last.key, last.value)
  }

  function Remove(es: seq<Entry>, k: string): (r: seq<Entry>)
    ensures |r| <= |es|
    ensures forall j :: 0 <= j < |r| ==> r[j] in es && r[j].key != k
    ensures forall j :: 0 <= j < |es| && es[j].key != k ==> es[j] in r
    ensures Has(es, k) ==> |r| < |es|
  {
    if es == [] then [] else
      var t := Remove(es[1..], k);
      assert Has(es, k) && es[0].key != k ==> Has(es[1..], k) by {
        if Has(es, k) && es[0].key != k {
          var j :| 0 <= j < |es| && es[j].key == k;
          assert es[1..][j - 1].key == k;
        }
      }
      if es[0].key == k then t else [es[0]] + t
  }

  lemma {:induction false} GetAppend(es: seq<Entry>, e: Entry, k: string)
    ensures Get(es + [e], k) == if Get(es, k).Some? then Get(es, k) else if e.key == k then Some(e.value) else None
  {
    if es != [] {
      assert (es + [e])[1..] == es[1..] + [e];
      GetAppend(es[1..], e, k);
    }
  }

  lemma {:induction false} GetInsertOther(es: seq<Entry>, k: string, v: Value, k': string)
    requires k != k'
    ensures Get(Insert(es, k, v), k') == Get(es, k')
  {
    if es != [] {
      var r := Insert(es, k, v);
      if es[0].key == k {
        assert r[1..] == es[1..];
      } else {
        GetInsertOther(es[1..], k, v, k');
        assert r[1..] == Insert(es[1..], k, v);
      }
    }
  }

  lemma {:induction false} GetRemoveOther(es: seq<Entry>, k: string, k': string)
    requires k != k'
    ensures Get(Remove(es, k), k') == Get(es, k')
  {
    if es != [] {
      GetRemoveOther(es[1..], k, k');
      var t := Remove(es[1..], k);
      assert ([es[0]] + t)[1..] == t;
    }
  }

  lemma {:induction false} OrInsertAllKeeps(es: seq<Entry>, more: seq<Entry>, k: string)
    ensures Get(es, k).Some? ==> Get(OrInsertAll(es, more), k) == Get(es, k)
    ensures forall j :: 0 <= j < |OrInsertAll(es, more)| ==>
      OrInsertAll(es, more)[j] in es || OrInsertAll(es, more)[j] in more
  {
    if more != [] {
      var init, last := more[..|more| - 1], more[|more| - 1];
      OrInsertAllKeeps(es, init, k);
      GetAppend(OrInsertAll(es, init), last, k);
    }
  }

  lemma NothingUnder(k: string)
    ensures Get([], k).None?
  {
  }

  /** A key of `more` that `es` lacks ends up with its first value. */
  lemma {:induction false} OrInsertAllAdds(es: seq<Entry>, more: seq<Entry>, k: string)
    ensures Get(es, k).None? ==> Get(OrInsertAll(es, more), k) == Get(more, k)
  {
    hide Get;
    if more == [] {
      NothingUnder(k);
    } else {
      var init, last := more[..|more| - 1], more[|more| - 1];
      OrInsertAllAdds(es, init, k);
      GetAppend(OrInsertAll(es, init), last, k);
      GetAppend(init, last, k);
      assert init + [last] == more;
    }
  }

  // ---------------------------------------------------------------------------------------------
  // Keywords
  // ---------------------------------------------------------------------------------------------

  /** `Meta` and `Closed` keywords are dropped: `Meta` ones say nothing about instances.  `Note`
      keywords are annotations that are kept.  Everything else is `Plain`. */
  datatype Keyword =
    | Type | Enum | Const | Properties | Required | Items | AnyOf | OneOf | Ref | Nullable
    | Meta | Closed | Note | Plain

  function KeywordOf(k: string): Keyword {
    if k == "type" then Type
    else if k == "enum" then Enum
    else if k == "const" then Const
    else if k == "properties" then Properties
    else if k == "required" then Required
    else if k == "items" then Items
    else if k == "anyOf" then AnyOf
    else if k == "oneOf" then OneOf
    else if k == "$ref" then Ref
    else if k == "nullable" then Nullable
    else if k in {"$schema", "$id", "$comment", "$defs", "definitions"} then Meta
    else if k in {"additionalProperties", "unevaluatedProperties", "patternProperties"} then Closed
    else if k in {"title", "description", "default", "examples"} then Note
    else Plain
  }

  lemma KeywordTable()
    ensures KeywordOf("type") == Type && KeywordOf("enum") == Enum && KeywordOf("const") == Const
    ensures KeywordOf("anyOf") == AnyOf && KeywordOf("oneOf") == OneOf && KeywordOf("$ref") == Ref
    ensures KeywordOf("nullable") == Nullable && KeywordOf("properties") == Properties
    ensures forall k :: (KeywordOf(k) == Type ==> k == "type") && (KeywordOf(k) == Enum ==> k == "enum")
    ensures forall k :: (KeywordOf(k) == AnyOf ==> k == "anyOf") && (KeywordOf(k) == Ref ==> k == "$ref")
    ensures forall k :: KeywordOf(k) == Nullable ==> k == "nullable"
  {
    KeywordTypeEnumConst();
    KeywordAnyOneRef();
    KeywordNullable();
    KeywordProperties();
    KeywordOnly();
    hide KeywordOf;
  }

  lemma KeywordTypeEnumConst()
    ensures KeywordOf("type") == Type && KeywordOf("enum") == Enum && KeywordOf("const") == Const
  {
  }

  lemma KeywordAnyOneRef()
    ensures KeywordOf("anyOf") == AnyOf && KeywordOf("oneOf") == OneOf && KeywordOf("$ref") == Ref
  {
  }

  lemma KeywordNullable()
    ensures KeywordOf("nullable") == Nullable
  {
  }

  lemma KeywordProperties()
    ensures KeywordOf("properties") == Properties
  {
  }

  lemma KeywordMeta()
    ensures forall k | k in {"$schema", "$defs", "definitions", "$id", "$comment"} :: KeywordOf(k) == Meta
  {
    KeywordMetaDollar();
    assert KeywordOf("definitions") == Meta;
    hide KeywordOf;
  }

  lemma KeywordMetaDollar()
    ensures KeywordOf("$schema") == KeywordOf("$defs") == KeywordOf("$id") == KeywordOf("$comment") == Meta
  {
  }

  /** These keywords have one name each. */
  lemma KeywordOnly()
    ensures forall k :: (KeywordOf(k) == Type ==> k == "type") && (KeywordOf(k) == Enum ==> k == "enum")
    ensures forall k :: (KeywordOf(k) == AnyOf ==> k == "anyOf") && (KeywordOf(k) == Ref ==> k == "$ref")
    ensures forall k :: KeywordOf(k) == Nullable ==> k == "nullable"
  {
  }

  // ---------------------------------------------------------------------------------------------
  // The rewriting, as a function
  // ---------------------------------------------------------------------------------------------

  /** The definition a reference names, if it is a local one that exists. */
  function Resolve(reference: string, defs: seq<Entry>): (r: Option<Value>)
    ensures r.Some? ==> exists j :: 0 <= j < |defs| && defs[j].value == r.value
  {
    var d, e := "#/$defs/", "#/definitions/";
    if d <= reference then Get(defs, reference[|d|..])
    else if e <= reference then Get(defs, reference[|e|..])
    else None
  }

  /** What `$ref` of this object stands for: `None` when it has none, `Some(None)` when it cannot
      be resolved. */
  function Target(es: seq<Entry>, defs: seq<Entry>): Option<Option<Value>> {
    match Get(es, "$ref")
    case Some(Str(r)) => Some(Resolve(r, defs))
    case _ => None
  }

  function Definitions(schema: Value): seq<Entry> {
    OrInsertAll(InsertAll([], Members(schema, "$defs")), Members(schema, "definitions"))
  }

  /** The entries of the object under a key, none if there is no such object. */
  function Members(schema: Value, key: string): seq<Entry> {
    var v := GetOr(if schema.Obj? then Get(schema.entries, key) else None, Null);
    if v.Obj? then v.entries else []
  }

  function InsertAll(es: seq<Entry>, more: seq<Entry>): seq<Entry> {
    if more == [] then es else
      var last := more[|more| - 1];
      Insert(InsertAll(es, more[..|more| - 1]), last.key, last.value)
  }

  function FirstNonNull(arr: seq<Value>): Option<Value> {
    if arr == [] then None
    else if arr[0] == Str("null") then FirstNonNull(arr[1..])
    else Some(arr[0])
  }

  lemma {:induction false} FirstNonNullIn(items: seq<Value>)
    ensures FirstNonNull(items).Some? ==> FirstNonNull(items).value in items && FirstNonNull(items).value != Str("null")
    ensures FirstNonNull(items).None? ==> forall t <- items :: t == Str("null")
  {
    if items != [] && items[0] == Str("null") {
      FirstNonNullIn(items[1..]);
      assert items == [items[0]] + items[1..];
    }
  }

  /** `type: [X, "null"]` becomes `type: X, nullable: true`. */
  function Retyped(value: Value, out: seq<Entry>): seq<Entry> {
    if !value.Arr? then Insert(out, "type", value) else
      var chosen := FirstNonNull(value.items);
      var out1 := if chosen.Some? then Insert(out, "type", chosen.value) else out;
      if Str("null") in value.items then Insert(out1, "nullable", Bool(true)) else out1
  }

  predicate IsBareNull(item: Value) {
    item.Obj? && Get(item.entries, "type") == Some(Str("null")) && forall e <- item.entries :: e.key == "type"
  }

  function Retained(arr: seq<Value>): (r: seq<Value>)
    ensures |r| <= |arr|
    ensures forall v <- r :: v in arr && !IsBareNull(v)
    ensures forall v <- arr :: !IsBareNull(v) ==> v in r
    ensures |r| == |arr| <==> forall v <- arr :: !IsBareNull(v)
    ensures |r| == |arr| ==> r == arr
  {
    if arr == [] then [] else
      var t := Retained(arr[..|arr| - 1]);
      assert arr == arr[..|arr| - 1] + [arr[|arr| - 1]];
      if IsBareNull(arr[|arr| - 1]) then t else t + [arr[|arr| - 1]]
  }

  /** Null members leave `anyOf` for `nullable`; an `anyOf` of one member collapses. */
  function Lifted(out: seq<Entry>): seq<Entry> {
    match Get(out, "anyOf")
    case Some(Arr(arr)) =>
      var kept := Retained(arr);
      var out1 := Insert(out, "anyOf", Arr(kept));
      var out2 := if |kept| != |arr| then OrInsert(out1, "nullable", Bool(true)) else out1;
      if |kept| == 0 then Remove(out2, "anyOf")
      else if |kept| == 1 then
        var rest := Remove(out2, "anyOf");
        if kept[0].Obj? then OrInsertAll(rest, kept[0].entries) else rest
      else out2
    case _ => out
  }

  function Left(depth: nat): nat {
    if depth <= MAX_DEPTH then MAX_DEPTH + 1 - depth else 0
  }

  function Walked(value: Value, defs: seq<Entry>, depth: nat): Value
    decreases Left(depth), 2, 0
  {
    if depth > MAX_DEPTH then Null else
      match value
      case Obj(es) => WalkedObject(es, defs, depth)
      case Arr(items) => Arr(WalkedItems(items, defs, depth + 1))
      case _ => value
  }

  function WalkedItems(items: seq<Value>, defs: seq<Entry>, depth: nat): (r: seq<Value>)
    ensures |r| == |items|
    ensures forall j :: 0 <= j < |r| ==> r[j] == Walked(items[j], defs, depth)
    decreases Left(depth), 3, |items|
  {
    if items == [] then [] else
      WalkedItems(items[..|items| - 1], defs, depth) + [Walked(items[|items| - 1], defs, depth)]
  }

  function WalkedObject(es: seq<Entry>, defs: seq<Entry>, depth: nat): Value
    requires depth <= MAX_DEPTH
    decreases Left(depth), 1, |es|
  {
    match Target(es, defs)
    case Some(Some(target)) =>
      var resolved := Walked(target, defs, depth + 1);
      if resolved.Obj? then Obj(Merged(resolved.entries, es, defs, depth)) else resolved
    case Some(None) =>
      WalkedObject(Remove(es, "$ref"), defs, depth)
    case None =>
      Obj(Lifted(WalkedEntries(es, defs, depth)))
  }

  /** The siblings of a resolved reference, where the target does not define them. */
  function Merged(resolved: seq<Entry>, es: seq<Entry>, defs: seq<Entry>, depth: nat): seq<Entry>
    requires depth <= MAX_DEPTH
    decreases Left(depth), 0, |es|
  {
    if es == [] then resolved else
      var acc, last := Merged(resolved, es[..|es| - 1], defs, depth), es[|es| - 1];
      if last.key == "$ref" then acc else OrInsert(acc, last.key, Walked(last.value, defs, depth + 1))
  }

  function WalkedEntries(es: seq<Entry>, defs: seq<Entry>, depth: nat): seq<Entry>
    requires depth <= MAX_DEPTH
    decreases Left(depth), 0, |es|
  {
    if es == [] then [] else
      WalkedEntry(WalkedEntries(es[..|es| - 1], defs, depth), es[|es| - 1], defs, depth)
  }

  function WalkedEntry(acc: seq<Entry>, e: Entry, defs: seq<Entry>, depth: nat): seq<Entry>
    requires depth <= MAX_DEPTH
    decreases Left(depth), 0, 0
  {
    match KeywordOf(e.key)
    case Meta => acc
    case Closed => acc
    case Type => Retyped(e.value, acc)
    case Const => Insert(acc, "enum", Arr([e.value]))
    case OneOf => Insert(acc, "anyOf", Walked(e.value, defs, depth + 1))
    case _ => Insert(acc, e.key, Walked(e.value, defs, depth + 1))
  }

  function Stripped(es: seq<Entry>): seq<Entry> {
    Remove(Remove(Remove(Remove(Remove(es, "$schema"), "$defs"), "definitions"), "$id"), "$comment")
  }

  function Sanitized(schema: Value): Value {
    var out := Walked(schema, Definitions(schema), 0);
    if out.Obj? then Obj(Stripped(out.entries)) else out
  }
}
