/** The output of the rewriting has nothing left that Gemini rejects, and rewriting it again changes
    nothing (crates/provider-gemini/src/schema.rs). */
module SchemaClean {
  import opened Base
  import opened Schema

  predicate Distinct(es: seq<Entry>) {
    forall j, k :: 0 <= j < k < |es| ==> es[j].key != es[k].key
  }

  /** Keywords that must not survive. */
  predicate Forbidden(k: string) {
    KeywordOf(k) in {Meta, Closed, Ref, Const, OneOf}
  }

  /** At every depth: distinct keys, no forbidden key, no array-valued `type`, and every `anyOf` has
      two members or more, none of them a bare null. */
  predicate Clean(v: Value)
    decreases v, 1
  {
    match v
    case Obj(es) => Distinct(es) && forall k :: 0 <= k < |es| ==> CleanEntry(es[k].key, es[k].value)
    case Arr(items) => forall m :: 0 <= m < |items| ==> Clean(items[m])
    case _ => true
  }

  predicate CleanEntry(key: string, v: Value)
    decreases v, 2
  {
    && !Forbidden(key)
    && (key == "type" ==> !v.Arr?)
    && (key == "anyOf" && v.Arr? ==> |v.items| >= 2 && forall m <- v.items :: !IsBareNull(m))
    && Clean(v)
  }

  /** The same, before `anyOf` is put in order. */
  predicate NearlyClean(e: Entry) {
    !Forbidden(e.key) && (e.key == "type" ==> !e.value.Arr?) && Clean(e.value)
  }

  predicate AllClean(es: seq<Entry>) {
    forall k :: 0 <= k < |es| ==> CleanEntry(es[k].key, es[k].value)
  }

  predicate AllNearlyClean(es: seq<Entry>) {
    forall e <- es :: NearlyClean(e)
  }

  predicate IsTypeValue(v: Value) {
    v.Str? || (v.Arr? && forall t <- v.items :: t.Str?)
  }

  /** May this keyword stand beside a reference that resolves?  The five keys that `sanitize` strips
      from the root may, at the root. */
  predicate MayAccompanyRef(key: string, root: bool) {
    KeywordOf(key) !in {Type, Const, OneOf, AnyOf, Closed} && (KeywordOf(key) == Meta ==> root)
  }

  /** Inputs whose output is clean, definitions aside. */
  predicate CleanInput(v: Value, defs: seq<Entry>, root: bool)
    decreases v
  {
    match v
    case Obj(es) =>
      && (forall k :: 0 <= k < |es| ==>
            match KeywordOf(es[k].key)
            case Ref => es[k].value.Str?
            case Type => IsTypeValue(es[k].value)
            case Const => !es[k].value.Arr? && !es[k].value.Obj?
            case Meta => true
            case Closed => true
            case _ => CleanInput(es[k].value, defs, false))
      && (Target(es, defs).Some? && Target(es, defs).value.Some? ==>
            forall k :: 0 <= k < |es| ==> MayAccompanyRef(es[k].key, root))
    case Arr(items) => forall m :: 0 <= m < |items| ==> CleanInput(items[m], defs, false)
    case _ => true
  }

  predicate CleanDefs(defs: seq<Entry>) {
    forall d <- defs :: CleanInput(d.value, defs, false)
  }

  // ---------------------------------------------------------------------------------------------
  // Entry lists
  // ---------------------------------------------------------------------------------------------

  lemma {:induction false} InsertNew(es: seq<Entry>, k: string, v: Value)
    requires Get(es, k).None?
    ensures Insert(es, k, v) == es + [Entry(k, v)]
  {
    if es != [] {
      InsertNew(es[1..], k, v);
    }
  }

  lemma {:induction false} InsertSame(es: seq<Entry>, k: string, v: Value)
    requires Get(es, k) == Some(v)
    ensures Insert(es, k, v) == es
  {
    if es[0].key == k {
      assert es[0] == Entry(k, v);
    } else {
      InsertSame(es[1..], k, v);
    }
  }

  lemma {:induction false} RemoveAbsent(es: seq<Entry>, k: string)
    requires Get(es, k).None?
    ensures Remove(es, k) == es
  {
    if es != [] {
      RemoveAbsent(es[1..], k);
    }
  }

  lemma AppendDistinct(es: seq<Entry>, e: Entry)
    requires Distinct(es) && Get(es, e.key).None?
    ensures Distinct(es + [e])
  {
  }

  lemma {:induction false} InsertDistinct(es: seq<Entry>, k: string, v: Value)
    requires Distinct(es)
    ensures Distinct(Insert(es, k, v))
  {
    if es != [] && es[0].key != k {
      var t := Insert(es[1..], k, v);
      InsertDistinct(es[1..], k, v);
      forall j | 0 <= j < |t| ensures t[j].key != es[0].key {
        assert t[j] == Entry(k, v) || t[j] in es[1..];
      }
    }
  }

  lemma {:induction false} RemoveDistinct(es: seq<Entry>, k: string)
    requires Distinct(es)
    ensures Distinct(Remove(es, k))
  {
    if es != [] {
      var t := Remove(es[1..], k);
      RemoveDistinct(es[1..], k);
      forall j | 0 <= j < |t| ensures t[j].key != es[0].key {
        assert t[j] in es[1..];
      }
    }
  }

  lemma OrInsertClean(es: seq<Entry>, k: string, v: Value)
    requires Distinct(es) && AllClean(es) && CleanEntry(k, v)
    ensures Distinct(OrInsert(es, k, v)) && AllClean(OrInsert(es, k, v))
  {
    if Get(es, k).None? {
      AppendDistinct(es, Entry(k, v));
    }
  }

  lemma {:induction false} OrInsertAllClean(es: seq<Entry>, more: seq<Entry>)
    requires Distinct(es) && AllClean(es) && AllClean(more)
    ensures Distinct(OrInsertAll(es, more)) && AllClean(OrInsertAll(es, more))
  {
    hide CleanEntry;
    if more != [] {
      var init, last := more[..|more| - 1], more[|more| - 1];
      OrInsertAllClean(es, init);
      OrInsertClean(OrInsertAll(es, init), last.key, last.value);
    }
  }

  lemma InsertNearly(es: seq<Entry>, k: string, v: Value)
    requires Distinct(es) && AllNearlyClean(es) && NearlyClean(Entry(k, v))
    ensures Distinct(Insert(es, k, v)) && AllNearlyClean(Insert(es, k, v))
  {
    hide NearlyClean;
    InsertDistinct(es, k, v);
    var r := Insert(es, k, v);
    forall e <- r ensures NearlyClean(e) {
      var j :| 0 <= j < |r| && r[j] == e;
    }
  }

  lemma RetypedNearly(value: Value, es: seq<Entry>)
    requires Distinct(es) && AllNearlyClean(es) && IsTypeValue(value)
    ensures Distinct(Retyped(value, es)) && AllNearlyClean(Retyped(value, es))
  {
    KeywordTable();
    hide Distinct, AllNearlyClean, Insert;
    if !value.Arr? {
      InsertNearly(es, "type", value);
    } else {
      var chosen := FirstNonNull(value.items);
      FirstNonNullIn(value.items);
      var out1 := if chosen.Some? then Insert(es, "type", chosen.value) else es;
      if chosen.Some? {
        InsertNearly(es, "type", chosen.value);
      }
      InsertNearly(out1, "nullable", Bool(true));
    }
  }

  // ---------------------------------------------------------------------------------------------
  // Cleanliness
  // ---------------------------------------------------------------------------------------------

  /** Without an array under `anyOf`, nearly clean entries are clean. */
  lemma NearlyIsClean(es: seq<Entry>)
    requires AllNearlyClean(es) && forall e <- es :: e.key == "anyOf" ==> !e.value.Arr?
    ensures AllClean(es)
  {
    forall k | 0 <= k < |es| ensures CleanEntry(es[k].key, es[k].value) {
      assert es[k] in es;
    }
  }

  lemma RetainedClean(arr: seq<Value>)
    requires Clean(Arr(arr))
    ensures Clean(Arr(Retained(arr)))
  {
    var r := Retained(arr);
    forall m | 0 <= m < |r| ensures Clean(r[m]) {
      assert r[m] in arr;
      var j :| 0 <= j < |arr| && arr[j] == r[m];
      assert Clean(Arr(arr).items[j]);
    }
  }

  lemma LiftedClean(out: seq<Entry>)
    requires Distinct(out) && AllNearlyClean(out)
    ensures Distinct(Lifted(out)) && AllClean(Lifted(out))
  {
    match Get(out, "anyOf") {
      case Some(Arr(arr)) =>
        var j :| 0 <= j < |out| && out[j] == Entry("anyOf", Arr(arr));
        assert out[j] in out;
        LiftedArrayClean(out, arr);
      case _ =>
        forall e <- out ensures e.key == "anyOf" ==> !e.value.Arr? {
          GetDistinct(out, e);
        }
        NearlyIsClean(out);
    }
  }

  lemma {:induction false} GetDistinct(es: seq<Entry>, e: Entry)
    requires Distinct(es) && e in es
    ensures Get(es, e.key) == Some(e.value)
  {
    if es[0] != e {
      assert e in es[1..];
      var j :| 0 <= j < |es| && es[j] == e;
      GetDistinct(es[1..], e);
    }
  }

  lemma LiftedArrayClean(out: seq<Entry>, arr: seq<Value>)
    requires Distinct(out) && AllNearlyClean(out) && Get(out, "anyOf") == Some(Arr(arr)) && Clean(Arr(arr))
    ensures Distinct(Lifted(out)) && AllClean(Lifted(out))
  {
    hide NearlyClean, CleanEntry, KeywordOf, Clean, Distinct, AllClean, AllNearlyClean, Get, Insert, OrInsert, Remove;
    hide IsBareNull;
    RetainedClean(arr);
    var kept := Retained(arr);
    NearlyAnyOf(kept);
    InsertNearly(out, "anyOf", Arr(kept));
    var out1 := Insert(out, "anyOf", Arr(kept));
    OrInsertNullableNearly(out1);
    var out2 := if |kept| != |arr| then OrInsert(out1, "nullable", Bool(true)) else out1;
    ShrunkClean(out2, kept);
  }

  lemma NearlyAnyOf(kept: seq<Value>)
    requires Clean(Arr(kept))
    ensures NearlyClean(Entry("anyOf", Arr(kept)))
  {
    hide Clean;
    KeywordTable();
  }

  lemma OrInsertNullableNearly(es: seq<Entry>)
    requires Distinct(es) && AllNearlyClean(es)
    ensures var r := OrInsert(es, "nullable", Bool(true));
            Distinct(r) && AllNearlyClean(r) && (Get(es, "anyOf").Some? ==> Get(r, "anyOf") == Get(es, "anyOf"))
  {
    var e := Entry("nullable", Bool(true));
    assert NearlyClean(e) by {
      KeywordTable();
    }
    hide NearlyClean, Distinct;
    GetAppend(es, e, "anyOf");
    if Get(es, "nullable").None? {
      AppendDistinct(es, e);
    }
  }

  lemma ShrunkClean(out2: seq<Entry>, kept: seq<Value>)
    requires Distinct(out2) && AllNearlyClean(out2) && Get(out2, "anyOf") == Some(Arr(kept))
    requires Clean(Arr(kept)) && forall m <- kept :: !IsBareNull(m)
    ensures |kept| >= 2 ==> AllClean(out2)
    ensures |kept| < 2 ==> Distinct(Remove(out2, "anyOf")) && AllClean(Remove(out2, "anyOf"))
    ensures |kept| == 1 && kept[0].Obj? ==>
              var r := OrInsertAll(Remove(out2, "anyOf"), kept[0].entries);
              Distinct(r) && AllClean(r)
  {
    if |kept| >= 2 {
      forall k | 0 <= k < |out2| ensures CleanEntry(out2[k].key, out2[k].value) {
        assert out2[k] in out2;
        GetDistinct(out2, out2[k]);
      }
    } else {
      var rest := Remove(out2, "anyOf");
      RemoveDistinct(out2, "anyOf");
      forall e <- rest ensures NearlyClean(e) && e.key != "anyOf" {
        var j :| 0 <= j < |rest| && rest[j] == e;
      }
      NearlyIsClean(rest);
      if |kept| == 1 && kept[0].Obj? {
        assert Clean(Arr(kept).items[0]);
        OrInsertAllClean(rest, kept[0].entries);
      }
    }
  }

  lemma {:induction false} WalkClean(v: Value, defs: seq<Entry>, depth: nat)
    requires CleanInput(v, defs, false) && CleanDefs(defs)
    ensures Clean(Walked(v, defs, depth))
    decreases Left(depth), 3, 0
  {
    if depth <= MAX_DEPTH {
      match v {
        case Obj(es) => ObjectClean(es, defs, depth, false);
        case Arr(items) =>
          var r := WalkedItems(items, defs, depth + 1);
          forall m | 0 <= m < |r| ensures Clean(r[m]) {
            WalkClean(items[m], defs, depth + 1);
          }
        case _ =>
      }
    }
  }

  /** Clean, or at the root clean but for the keys that are stripped there. */
  predicate CleanAt(es: seq<Entry>, root: bool) {
    && Distinct(es)
    && forall k :: 0 <= k < |es| ==> CleanEntry(es[k].key, es[k].value) || (root && KeywordOf(es[k].key) == Meta)
  }

  lemma {:induction false} ObjectClean(es: seq<Entry>, defs: seq<Entry>, depth: nat, root: bool)
    requires depth <= MAX_DEPTH && CleanInput(Obj(es), defs, root) && CleanDefs(defs)
    ensures WalkedObject(es, defs, depth).Obj? ==> CleanAt(WalkedObject(es, defs, depth).entries, root)
    ensures !WalkedObject(es, defs, depth).Obj? ==> Clean(WalkedObject(es, defs, depth))
    decreases Left(depth), 2, |es|
  {
    hide CleanEntry, Lifted, Distinct, KeywordOf, IsTypeValue;
    match Target(es, defs) {
      case Some(Some(t)) =>
        TargetIsInput(es, defs, t);
        WalkClean(t, defs, depth + 1);
        var resolved := Walked(t, defs, depth + 1);
        if resolved.Obj? {
          MergedClean(resolved.entries, es, defs, depth, root);
        }
      case Some(None) =>
        RemovedInput(es, defs, root);
        ObjectClean(Remove(es, "$ref"), defs, depth, root);
      case None =>
        RefIsString(es, defs, root);
        EntriesClean(es, defs, depth, root);
        LiftedClean(WalkedEntries(es, defs, depth));
    }
  }

  lemma TargetIsInput(es: seq<Entry>, defs: seq<Entry>, t: Value)
    requires CleanDefs(defs) && Target(es, defs) == Some(Some(t))
    ensures CleanInput(t, defs, false)
  {
    hide CleanInput;
    var j :| 0 <= j < |defs| && defs[j].value == t;
    assert defs[j] in defs;
  }

  /** What the input condition says about one entry. */
  predicate CleanInputEntry(e: Entry, defs: seq<Entry>) {
    match KeywordOf(e.key)
    case Ref => e.value.Str?
    case Type => IsTypeValue(e.value)
    case Const => !e.value.Arr? && !e.value.Obj?
    case Meta => true
    case Closed => true
    case _ => CleanInput(e.value, defs, false)
  }

  lemma InputEntries(es: seq<Entry>, defs: seq<Entry>, root: bool)
    requires CleanInput(Obj(es), defs, root)
    ensures forall k :: 0 <= k < |es| ==> CleanInputEntry(es[k], defs)
  {
    hide KeywordOf;
    forall k | 0 <= k < |es| ensures CleanInputEntry(es[k], defs) {
      assert Obj(es).entries[k] == es[k];
    }
  }

  lemma EntriesAreInput(es: seq<Entry>, defs: seq<Entry>, root: bool)
    requires Target(es, defs) == None && forall k :: 0 <= k < |es| ==> CleanInputEntry(es[k], defs)
    ensures CleanInput(Obj(es), defs, root)
  {
    hide KeywordOf;
    forall k | 0 <= k < |es|
      ensures match KeywordOf(Obj(es).entries[k].key)
              case Ref => es[k].value.Str?
              case Type => IsTypeValue(es[k].value)
              case Const => !es[k].value.Arr? && !es[k].value.Obj?
              case Meta => true
              case Closed => true
              case _ => CleanInput(es[k].value, defs, false)
    {
      assert CleanInputEntry(es[k], defs);
    }
  }

  lemma ReferenceIsString(es: seq<Entry>, defs: seq<Entry>)
    requires forall k :: 0 <= k < |es| ==> CleanInputEntry(es[k], defs)
    ensures Get(es, "$ref").Some? ==> Get(es, "$ref").value.Str?
  {
    KeywordTable();
    hide KeywordOf, CleanInput, Get;
    if Get(es, "$ref").Some? {
      var v := Get(es, "$ref").value;
      var j :| 0 <= j < |es| && es[j] == Entry("$ref", v);
      assert CleanInputEntry(es[j], defs);
    }
  }

  lemma RefIsString(es: seq<Entry>, defs: seq<Entry>, root: bool)
    requires CleanInput(Obj(es), defs, root) && Target(es, defs) == None
    ensures forall k :: 0 <= k < |es| ==> KeywordOf(es[k].key) != Ref
  {
    KeywordTable();
    InputEntries(es, defs, root);
    ReferenceIsString(es, defs);
  }

  lemma RemovedInput(es: seq<Entry>, defs: seq<Entry>, root: bool)
    requires CleanInput(Obj(es), defs, root)
    ensures CleanInput(Obj(Remove(es, "$ref")), defs, root)
    ensures Target(Remove(es, "$ref"), defs) == None
  {
    InputEntries(es, defs, root);
    hide KeywordOf, CleanInputEntry;
    var r := Remove(es, "$ref");
    forall k | 0 <= k < |r| ensures CleanInputEntry(r[k], defs) {
      assert r[k] in es;
    }
    EntriesAreInput(r, defs, root);
  }

  lemma {:induction false} EntriesClean(es: seq<Entry>, defs: seq<Entry>, depth: nat, root: bool)
    requires depth <= MAX_DEPTH && CleanInput(Obj(es), defs, root) && CleanDefs(defs)
    requires forall k :: 0 <= k < |es| ==> KeywordOf(es[k].key) != Ref
    ensures Distinct(WalkedEntries(es, defs, depth)) && AllNearlyClean(WalkedEntries(es, defs, depth))
    decreases Left(depth), 1, 0
  {
    InputEntries(es, defs, root);
    PrefixClean(es, defs, depth);
  }

  lemma {:induction false} PrefixClean(es: seq<Entry>, defs: seq<Entry>, depth: nat)
    requires depth <= MAX_DEPTH && CleanDefs(defs)
    requires forall k :: 0 <= k < |es| ==> CleanInputEntry(es[k], defs) && KeywordOf(es[k].key) != Ref
    ensures Distinct(WalkedEntries(es, defs, depth)) && AllNearlyClean(WalkedEntries(es, defs, depth))
    decreases Left(depth), 0, |es|
  {
    if es != [] {
      var n := |es| - 1;
      PrefixClean(es[..n], defs, depth);
      EntryClean(WalkedEntries(es[..n], defs, depth), es[n], defs, depth);
    }
  }

  lemma {:induction false} EntryClean(acc: seq<Entry>, e: Entry, defs: seq<Entry>, depth: nat)
    requires depth <= MAX_DEPTH && CleanDefs(defs) && CleanInputEntry(e, defs) && KeywordOf(e.key) != Ref
    requires Distinct(acc) && AllNearlyClean(acc)
    ensures Distinct(WalkedEntry(acc, e, defs, depth)) && AllNearlyClean(WalkedEntry(acc, e, defs, depth))
    decreases Left(depth), 0, 0
  {
    KeywordTable();
    hide KeywordOf, Distinct, AllNearlyClean, Retyped, IsTypeValue;
    var kw, w := KeywordOf(e.key), Walked(e.value, defs, depth + 1);
    if kw == Type {
      RetypedNearly(e.value, acc);
    } else if kw == Const {
      assert Clean(Arr([e.value]));
      InsertNearly(acc, "enum", Arr([e.value]));
    } else if kw !in {Meta, Closed} {
      WalkClean(e.value, defs, depth + 1);
      InsertNearly(acc, if kw == OneOf then "anyOf" else e.key, w);
    }
  }

  lemma {:induction false} MergedClean(resolved: seq<Entry>, es: seq<Entry>, defs: seq<Entry>, depth: nat, root: bool)
    requires depth <= MAX_DEPTH && CleanDefs(defs) && CleanInput(Obj(es), defs, root)
    requires forall k :: 0 <= k < |es| ==> MayAccompanyRef(es[k].key, root)
    requires Clean(Obj(resolved))
    ensures CleanAt(Merged(resolved, es, defs, depth), root)
    decreases Left(depth), 1, 0
  {
    InputEntries(es, defs, root);
    SiblingsClean(resolved, es, defs, depth, root);
  }

  lemma {:induction false} SiblingsClean(resolved: seq<Entry>, es: seq<Entry>, defs: seq<Entry>, depth: nat, root: bool)
    requires depth <= MAX_DEPTH && CleanDefs(defs) && Clean(Obj(resolved))
    requires forall k :: 0 <= k < |es| ==> CleanInputEntry(es[k], defs) && MayAccompanyRef(es[k].key, root)
    ensures CleanAt(Merged(resolved, es, defs, depth), root)
    decreases Left(depth), 0, |es|
  {
    if es != [] {
      var n := |es| - 1;
      SiblingsClean(resolved, es[..n], defs, depth, root);
      SiblingClean(Merged(resolved, es[..n], defs, depth), es[n], defs, depth, root);
    }
  }

  lemma {:induction false} SiblingClean(acc: seq<Entry>, e: Entry, defs: seq<Entry>, depth: nat, root: bool)
    requires depth <= MAX_DEPTH && CleanDefs(defs) && CleanInputEntry(e, defs) && MayAccompanyRef(e.key, root)
             && CleanAt(acc, root)
    ensures e.key != "$ref" ==> CleanAt(OrInsert(acc, e.key, Walked(e.value, defs, depth + 1)), root)
    decreases Left(depth), 0, 0
  {
    KeywordTable();
    hide KeywordOf, Clean, Walked, Distinct, CleanInput, Get;
    if e.key != "$ref" && Get(acc, e.key).None? {
      AppendDistinct(acc, Entry(e.key, Walked(e.value, defs, depth + 1)));
      if KeywordOf(e.key) != Meta {
        WalkClean(e.value, defs, depth + 1);
        assert CleanEntry(e.key, Walked(e.value, defs, depth + 1));
      }
    }
  }

  /** The output of the sanitiser is clean, cyclic definitions and the depth cap included. */
  lemma SanitizedIsClean(schema: Value)
    requires CleanInput(schema, Definitions(schema), true) && CleanDefs(Definitions(schema))
    ensures Clean(Sanitized(schema))
  {
    var defs := Definitions(schema);
    match schema {
      case Obj(es) =>
        ObjectClean(es, defs, 0, true);
        var out := Walked(schema, defs, 0);
        if out.Obj? {
          StrippedClean(out.entries);
        }
      case Arr(items) => WalkClean(schema, defs, 0);
      case _ =>
    }
  }

  lemma RemoveAt(es: seq<Entry>, k: string)
    requires CleanAt(es, true)
    ensures CleanAt(Remove(es, k), true)
  {
    hide CleanEntry, KeywordOf;
    RemoveDistinct(es, k);
    var r := Remove(es, k);
    forall j | 0 <= j < |r| ensures CleanEntry(r[j].key, r[j].value) || KeywordOf(r[j].key) == Meta {
      assert r[j] in es;
    }
  }

  lemma RemovedKeys(es: seq<Entry>, k: string, gone: set<string>)
    requires CleanAt(es, true) && forall j :: 0 <= j < |es| ==> es[j].key !in gone
    ensures CleanAt(Remove(es, k), true) && forall j :: 0 <= j < |Remove(es, k)| ==> Remove(es, k)[j].key !in gone + {k}
  {
    RemoveAt(es, k);
    hide CleanAt;
    var r := Remove(es, k);
    forall j | 0 <= j < |r| ensures r[j].key !in gone + {k} {
      assert r[j] in es;
    }
  }

  lemma StrippedClean(es: seq<Entry>)
    requires CleanAt(es, true)
    ensures Clean(Obj(Stripped(es)))
  {
    MetaKeys();
    hide CleanEntry, KeywordOf, Distinct;
    var r1 := Remove(es, "$schema");
    var r2 := Remove(r1, "$defs");
    var r3 := Remove(r2, "definitions");
    var r4 := Remove(r3, "$id");
    RemovedKeys(es, "$schema", {});
    RemovedKeys(r1, "$defs", {"$schema"});
    RemovedKeys(r2, "definitions", {"$schema", "$defs"});
    RemovedKeys(r3, "$id", {"$schema", "$defs", "definitions"});
    RemovedKeys(r4, "$comment", {"$schema", "$defs", "definitions", "$id"});
  }

  lemma MetaKeys()
    ensures forall k :: KeywordOf(k) == Meta ==> k in {"$schema", "$id", "$comment", "$defs", "definitions"}
  {
  }

  // ---------------------------------------------------------------------------------------------
  // A second pass
  // ---------------------------------------------------------------------------------------------

  /** What is nested deeper than the cap is null already, what stands under `type` aside. */
  predicate Fits(v: Value, depth: nat)
    decreases v
  {
    if depth > MAX_DEPTH then v.Null?
    else
      match v
      case Obj(es) => forall k :: 0 <= k < |es| ==> es[k].key == "type" || Fits(es[k].value, depth + 1)
      case Arr(items) => forall m :: 0 <= m < |items| ==> Fits(items[m], depth + 1)
      case _ => true
  }

  lemma {:induction false} CleanWalksToItself(v: Value, defs: seq<Entry>, depth: nat)
    requires Clean(v) && Fits(v, depth)
    ensures Walked(v, defs, depth) == v
    decreases v, 1
  {
    if depth > MAX_DEPTH {
      return;
    }
    match v {
      case Obj(es) =>
        NoReference(es);
        CleanEntriesStay(v, |es|, defs, depth);
        assert es[..|es|] == es;
        CleanLiftsToItself(es);
      case Arr(items) =>
        forall m | 0 <= m < |items| ensures WalkedItems(items, defs, depth + 1)[m] == items[m] {
          CleanWalksToItself(items[m], defs, depth + 1);
        }
      case _ =>
    }
  }

  lemma NoReference(es: seq<Entry>)
    requires AllClean(es)
    ensures Get(es, "$ref").None?
  {
    KeywordTable();
  }

  lemma {:induction false} CleanEntriesStay(v: Value, n: nat, defs: seq<Entry>, depth: nat)
    requires v.Obj? && Clean(v) && Fits(v, depth) && n <= |v.entries|
    ensures WalkedEntries(v.entries[..n], defs, depth) == v.entries[..n]
    decreases v, 0, n
  {
    hide Walked, WalkedEntries, Clean, Forbidden, Distinct;
    var es := v.entries;
    if n == 0 {
      NoEntriesStay(es, defs, depth);
    } else {
      CleanEntriesStay(v, n - 1, defs, depth);
      var e := es[n - 1];
      CleanInside(v, n - 1, depth);
      KeyIsNew(es, n - 1);
      if e.key != "type" {
        CleanWalksToItself(e.value, defs, depth + 1);
      }
      CleanEntryStays(es, n, defs, depth);
    }
  }

  lemma NoEntriesStay(es: seq<Entry>, defs: seq<Entry>, depth: nat)
    requires depth <= MAX_DEPTH
    ensures WalkedEntries(es[..0], defs, depth) == es[..0]
  {
  }

  lemma CleanInside(v: Value, k: nat, depth: nat)
    requires v.Obj? && Clean(v) && Fits(v, depth) && k < |v.entries|
    ensures Distinct(v.entries) && depth <= MAX_DEPTH
    ensures !Forbidden(v.entries[k].key) && (v.entries[k].key == "type" ==> !v.entries[k].value.Arr?)
    ensures Clean(v.entries[k].value) && (v.entries[k].key != "type" ==> Fits(v.entries[k].value, depth + 1))
  {
    hide Forbidden;
    assert CleanEntry(v.entries[k].key, v.entries[k].value);
  }

  lemma CleanEntryStays(es: seq<Entry>, n: nat, defs: seq<Entry>, depth: nat)
    requires depth <= MAX_DEPTH && 0 < n <= |es| && Get(es[..n - 1], es[n - 1].key).None?
    requires WalkedEntries(es[..n - 1], defs, depth) == es[..n - 1]
    requires !Forbidden(es[n - 1].key)
    requires if es[n - 1].key == "type" then !es[n - 1].value.Arr?
             else Walked(es[n - 1].value, defs, depth + 1) == es[n - 1].value
    ensures WalkedEntries(es[..n], defs, depth) == es[..n]
  {
    hide Walked, WalkedEntry, KeywordOf, Insert, Get;
    var before, e := es[..n - 1], es[n - 1];
    assert es[..n][..n - 1] == before;
    CleanEntryWalks(before, e, defs, depth);
    InsertNew(before, e.key, e.value);
    assert before + [e] == es[..n];
  }

  lemma CleanEntryWalks(before: seq<Entry>, e: Entry, defs: seq<Entry>, depth: nat)
    requires depth <= MAX_DEPTH && !Forbidden(e.key)
    requires if e.key == "type" then !e.value.Arr? else Walked(e.value, defs, depth + 1) == e.value
    ensures WalkedEntry(before, e, defs, depth) == Insert(before, e.key, e.value)
  {
    hide Walked, KeywordOf, Insert;
    TypeIsType(e.key);
  }

  lemma KeyIsNew(es: seq<Entry>, k: nat)
    requires Distinct(es) && k < |es|
    ensures Get(es[..k], es[k].key).None?
  {
  }

  lemma TypeIsType(k: string)
    ensures KeywordOf(k) == Type <==> k == "type"
  {
  }

  lemma CleanLiftsToItself(es: seq<Entry>)
    requires Distinct(es) && AllClean(es)
    ensures Lifted(es) == es
  {
    match Get(es, "anyOf") {
      case Some(Arr(arr)) =>
        var j :| 0 <= j < |es| && es[j] == Entry("anyOf", Arr(arr));
        assert CleanEntry(es[j].key, es[j].value);
        assert Retained(arr) == arr;
        InsertSame(es, "anyOf", Arr(arr));
      case _ =>
    }
  }

  // Where the first pass leaves room.  `depth` is how deep the walk is, `at` how deep its result will stand:
  // an inlined definition is walked one level deeper than it stands.

  /** Nothing the walk adds comes to stand below the cap: a null taken out of a type list needs one level for
      `nullable`, a constant one for the list it is put in and, unless it is null, one for itself. */
  predicate Room(v: Value, defs: seq<Entry>, depth: nat, at: nat, root: bool)
    decreases Left(depth), v
  {
    hide KeywordOf, IsScalar, Target;
    depth <= MAX_DEPTH ==>
    match v
    case Obj(es) =>
      (match Target(es, defs)
       case Some(Some(t)) =>
         && Room(t, defs, depth + 1, at, false)
         && forall k :: 0 <= k < |es| && es[k].key != "$ref" && !(root && KeywordOf(es[k].key) == Meta)
              ==> Room(es[k].value, defs, depth + 1, at + 1, false)
       case _ =>
         forall k :: 0 <= k < |es| ==>
           match KeywordOf(es[k].key)
           case Meta => true
           case Closed => true
           case Type => es[k].value.Arr? && Str("null") in es[k].value.items ==> at < MAX_DEPTH
           case Const => at + (if es[k].value.Null? then 1 else 2) <= MAX_DEPTH && IsScalar(es[k].value)
           case _ => Room(es[k].value, defs, depth + 1, at + 1, false))
    case Arr(items) => forall m :: 0 <= m < |items| ==> Room(items[m], defs, depth + 1, at + 1, false)
    case _ => true
  }

  predicate IsScalar(v: Value) {
    !v.Arr? && !v.Obj?
  }

  /** The entries of an object that stands at `at`. */
  predicate EntriesFit(es: seq<Entry>, at: nat) {
    forall e <- es :: e.key == "type" || Fits(e.value, at + 1)
  }

  /** The same at the root, before the keys are stripped that are stripped there. */
  predicate EntriesFitAt(es: seq<Entry>, at: nat, root: bool) {
    forall e <- es :: e.key == "type" || Fits(e.value, at + 1) || (root && KeywordOf(e.key) == Meta)
  }

  lemma {:induction false} FitsHigher(v: Value, depth: nat)
    requires Fits(v, depth + 1)
    ensures Fits(v, depth)
    decreases v
  {
    if depth + 1 <= MAX_DEPTH {
      match v {
        case Obj(es) =>
          forall k | 0 <= k < |es| && es[k].key != "type" ensures Fits(es[k].value, depth + 1) {
            FitsHigher(es[k].value, depth + 1);
          }
        case Arr(items) =>
          forall m | 0 <= m < |items| ensures Fits(items[m], depth + 1) {
            FitsHigher(items[m], depth + 1);
          }
        case _ =>
      }
    }
  }

  lemma ObjectFits(es: seq<Entry>, at: nat)
    requires at <= MAX_DEPTH
    ensures Fits(Obj(es), at) <==> EntriesFit(es, at)
  {
    if EntriesFit(es, at) {
      forall k | 0 <= k < |es| ensures es[k].key == "type" || Fits(es[k].value, at + 1) {
        assert es[k] in es;
      }
    }
  }

  lemma EntriesFitHigher(es: seq<Entry>, at: nat)
    requires EntriesFit(es, at + 1)
    ensures EntriesFit(es, at)
  {
    forall e <- es | e.key != "type" ensures Fits(e.value, at + 1) {
      FitsHigher(e.value, at + 1);
    }
  }

  lemma InsertFits(es: seq<Entry>, k: string, v: Value, at: nat)
    requires EntriesFit(es, at) && (k == "type" || Fits(v, at + 1))
    ensures EntriesFit(Insert(es, k, v), at)
  {
    hide Fits;
    var r := Insert(es, k, v);
    forall e <- r ensures e.key == "type" || Fits(e.value, at + 1) {
      var j :| 0 <= j < |r| && r[j] == e;
    }
  }

  lemma {:induction false} OrInsertAllFits(es: seq<Entry>, more: seq<Entry>, at: nat)
    requires EntriesFit(es, at) && EntriesFit(more, at)
    ensures EntriesFit(OrInsertAll(es, more), at)
  {
    hide Fits;
    OrInsertAllKeeps(es, more, "");
    var r := OrInsertAll(es, more);
    forall e <- r ensures e.key == "type" || Fits(e.value, at + 1) {
      var j :| 0 <= j < |r| && r[j] == e;
    }
  }

  lemma RemoveFits(es: seq<Entry>, k: string, at: nat, root: bool)
    requires EntriesFitAt(es, at, root)
    ensures EntriesFitAt(Remove(es, k), at, root)
  {
    hide Fits, KeywordOf;
    var r := Remove(es, k);
    forall e <- r ensures e.key == "type" || Fits(e.value, at + 1) || (root && KeywordOf(e.key) == Meta) {
      var j :| 0 <= j < |r| && r[j] == e;
    }
  }

  lemma RetypedFits(value: Value, es: seq<Entry>, at: nat)
    requires EntriesFit(es, at) && (value.Arr? && Str("null") in value.items ==> at < MAX_DEPTH)
    ensures EntriesFit(Retyped(value, es), at)
  {
    hide EntriesFit, Insert;
    if !value.Arr? {
      InsertFits(es, "type", value, at);
    } else {
      var chosen := FirstNonNull(value.items);
      var out1 := if chosen.Some? then Insert(es, "type", chosen.value) else es;
      if chosen.Some? {
        InsertFits(es, "type", chosen.value, at);
      }
      if Str("null") in value.items {
        InsertFits(out1, "nullable", Bool(true), at);
      }
    }
  }

  /** Taking null out of an `anyOf` needs no level that its members have not had. */
  lemma LiftedFits(es: seq<Entry>, at: nat)
    requires EntriesFit(es, at)
    ensures EntriesFit(Lifted(es), at)
  {
    match Get(es, "anyOf") {
      case Some(Arr(arr)) =>
        var j :| 0 <= j < |es| && es[j] == Entry("anyOf", Arr(arr));
        assert es[j] in es;
        LiftedArrayFits(es, arr, at);
      case _ =>
    }
  }

  lemma LiftedArrayFits(es: seq<Entry>, arr: seq<Value>, at: nat)
    requires EntriesFit(es, at) && Get(es, "anyOf") == Some(Arr(arr)) && Fits(Arr(arr), at + 1)
    ensures EntriesFit(Lifted(es), at)
  {
    RetainedFits(arr, at + 1);
    hide EntriesFit, Fits, Insert, Get, Remove, OrInsertAll, Retained;
    var kept := Retained(arr);
    var out1 := Insert(es, "anyOf", Arr(kept));
    InsertFits(es, "anyOf", Arr(kept), at);
    var out2 := if |kept| != |arr| then OrInsert(out1, "nullable", Bool(true)) else out1;
    if |kept| != |arr| {
      SomethingTaken(arr, at + 1);
      OrInsertFits(out1, "nullable", Bool(true), at);
    }
    RemovedFits(out2, "anyOf", at);
    if |kept| == 1 && kept[0].Obj? {
      SoleMemberFits(kept, at + 1);
      OrInsertAllFits(Remove(out2, "anyOf"), kept[0].entries, at);
    }
  }

  lemma OrInsertFits(es: seq<Entry>, k: string, v: Value, at: nat)
    requires EntriesFit(es, at) && Fits(v, at + 1)
    ensures EntriesFit(OrInsert(es, k, v), at)
  {
    hide Fits;
  }

  lemma RemovedFits(es: seq<Entry>, k: string, at: nat)
    requires EntriesFit(es, at)
    ensures EntriesFit(Remove(es, k), at)
  {
    hide Fits, KeywordOf;
    RemoveFits(es, k, at, false);
  }

  lemma RetainedFits(arr: seq<Value>, at: nat)
    requires Fits(Arr(arr), at)
    ensures Fits(Arr(Retained(arr)), at)
  {
    var r := Retained(arr);
    forall m | 0 <= m < |r| ensures Fits(r[m], at + 1) {
      assert r[m] in arr;
      var j :| 0 <= j < |arr| && arr[j] == r[m];
      assert Fits(Arr(arr).items[j], at + 1);
    }
  }

  lemma SomethingTaken(arr: seq<Value>, at: nat)
    requires Fits(Arr(arr), at) && |Retained(arr)| != |arr|
    ensures at < MAX_DEPTH && Fits(Bool(true), at)
  {
    var v :| v in arr && IsBareNull(v);
    var j :| 0 <= j < |arr| && arr[j] == v;
    assert Fits(Arr(arr).items[j], at + 1);
  }

  lemma SoleMemberFits(kept: seq<Value>, at: nat)
    requires |kept| == 1 && kept[0].Obj? && Fits(Arr(kept), at) && at > 0
    ensures EntriesFit(kept[0].entries, at - 1)
  {
    assert Fits(Arr(kept).items[0], at + 1);
    ObjectFits(kept[0].entries, at + 1);
    EntriesFitHigher(kept[0].entries, at);
    EntriesFitHigher(kept[0].entries, at - 1);
  }

  /** What has room fits once it is walked. */
  lemma {:induction false} WalkFits(v: Value, defs: seq<Entry>, depth: nat, at: nat)
    requires Room(v, defs, depth, at, false) && at <= depth
    ensures Fits(Walked(v, defs, depth), at)
    decreases Left(depth), 3, 0
  {
    if depth <= MAX_DEPTH {
      match v {
        case Obj(es) =>
          ObjectWalkFits(es, defs, depth, at, false);
          var w := WalkedObject(es, defs, depth);
          if w.Obj? {
            ObjectFits(w.entries, at);
          }
        case Arr(items) =>
          var r := WalkedItems(items, defs, depth + 1);
          forall m | 0 <= m < |r| ensures Fits(r[m], at + 1) {
            WalkFits(items[m], defs, depth + 1, at + 1);
          }
        case _ =>
      }
    } else if at <= MAX_DEPTH {
      assert Walked(v, defs, depth) == Null;
    }
  }

  lemma {:induction false} ObjectWalkFits(es: seq<Entry>, defs: seq<Entry>, depth: nat, at: nat, root: bool)
    requires depth <= MAX_DEPTH && Room(Obj(es), defs, depth, at, root) && at <= depth
    ensures var w := WalkedObject(es, defs, depth);
            if w.Obj? then EntriesFitAt(w.entries, at, root) else Fits(w, at)
    decreases Left(depth), 2, |es|
  {
    hide Fits, Lifted, KeywordOf;
    match Target(es, defs) {
      case Some(Some(t)) =>
        WalkFits(t, defs, depth + 1, at);
        var resolved := Walked(t, defs, depth + 1);
        if resolved.Obj? {
          ObjectFits(resolved.entries, at);
          forall e <- es | e.key != "$ref" && !(root && KeywordOf(e.key) == Meta)
            ensures Room(e.value, defs, depth + 1, at + 1, false)
          {
            var k :| 0 <= k < |es| && es[k] == e;
            assert Obj(es).entries[k] == e;
          }
          SiblingsFit(resolved.entries, es, defs, depth, at, root);
        }
      case Some(None) =>
        RoomWithoutRef(es, defs, depth, at, root);
        ObjectWalkFits(Remove(es, "$ref"), defs, depth, at, root);
      case None =>
        EntriesRoom(es, defs, depth, at, root);
        EntriesWalkFit(es, defs, depth, at);
        LiftedFits(WalkedEntries(es, defs, depth), at);
    }
  }

  /** What `Room` says about one entry of an object without a reference that resolves. */
  predicate EntryRoom(e: Entry, defs: seq<Entry>, depth: nat, at: nat) {
    match KeywordOf(e.key)
    case Meta => true
    case Closed => true
    case Type => e.value.Arr? && Str("null") in e.value.items ==> at < MAX_DEPTH
    case Const => at + (if e.value.Null? then 1 else 2) <= MAX_DEPTH && IsScalar(e.value)
    case _ => Room(e.value, defs, depth + 1, at + 1, false)
  }

  lemma EntriesRoom(es: seq<Entry>, defs: seq<Entry>, depth: nat, at: nat, root: bool)
    requires depth <= MAX_DEPTH && Room(Obj(es), defs, depth, at, root)
    requires Target(es, defs).None? || Target(es, defs).value.None?
    ensures forall e <- es :: EntryRoom(e, defs, depth, at)
  {
    hide KeywordOf;
    forall e <- es ensures EntryRoom(e, defs, depth, at) {
      var k :| 0 <= k < |es| && es[k] == e;
      assert Obj(es).entries[k] == e;
    }
  }

  lemma RoomOfEntries(es: seq<Entry>, defs: seq<Entry>, depth: nat, at: nat, root: bool)
    requires Target(es, defs).None? && forall e <- es :: EntryRoom(e, defs, depth, at)
    ensures Room(Obj(es), defs, depth, at, root)
  {
    hide KeywordOf;
    forall k | 0 <= k < |es| ensures EntryRoom(Obj(es).entries[k], defs, depth, at) {
      assert es[k] in es;
    }
  }

  lemma RoomWithoutRef(es: seq<Entry>, defs: seq<Entry>, depth: nat, at: nat, root: bool)
    requires depth <= MAX_DEPTH && Room(Obj(es), defs, depth, at, root) && Target(es, defs) == Some(None)
    ensures Room(Obj(Remove(es, "$ref")), defs, depth, at, root)
  {
    EntriesRoom(es, defs, depth, at, root);
    hide EntryRoom, Room;
    var r := Remove(es, "$ref");
    forall e <- r ensures EntryRoom(e, defs, depth, at) {
      var j :| 0 <= j < |r| && r[j] == e;
    }
    RoomOfEntries(r, defs, depth, at, root);
  }

  lemma {:induction false} EntriesWalkFit(es: seq<Entry>, defs: seq<Entry>, depth: nat, at: nat)
    requires depth <= MAX_DEPTH && at <= depth && forall e <- es :: EntryRoom(e, defs, depth, at)
    ensures EntriesFit(WalkedEntries(es, defs, depth), at)
    decreases Left(depth), 0, |es|
  {
    hide Fits, EntryRoom;
    if es != [] {
      var n := |es| - 1;
      EntriesWalkFit(es[..n], defs, depth, at);
      assert es[n] in es;
      EntryWalkFits(WalkedEntries(es[..n], defs, depth), es[n], defs, depth, at);
    }
  }

  lemma {:induction false} EntryWalkFits(acc: seq<Entry>, e: Entry, defs: seq<Entry>, depth: nat, at: nat)
    requires depth <= MAX_DEPTH && at <= depth && EntryRoom(e, defs, depth, at) && EntriesFit(acc, at)
    ensures EntriesFit(WalkedEntry(acc, e, defs, depth), at)
    decreases Left(depth), 0, 0
  {
    hide KeywordOf, EntriesFit, Retyped, Walked, Room, Fits, Insert;
    var kw, w := KeywordOf(e.key), Walked(e.value, defs, depth + 1);
    if kw == Type {
      RetypedFits(e.value, acc, at);
    } else if kw == Const {
      ConstFits(e.value, at);
      InsertFits(acc, "enum", Arr([e.value]), at);
    } else if kw !in {Meta, Closed} {
      WalkFits(e.value, defs, depth + 1, at + 1);
      InsertFits(acc, if kw == OneOf then "anyOf" else e.key, w, at);
    }
  }

  lemma ConstFits(v: Value, at: nat)
    requires at + (if v.Null? then 1 else 2) <= MAX_DEPTH && IsScalar(v)
    ensures Fits(Arr([v]), at + 1)
  {
  }

  lemma {:induction false} SiblingsFit(resolved: seq<Entry>, es: seq<Entry>, defs: seq<Entry>, depth: nat, at: nat,
                                       root: bool)
    requires depth <= MAX_DEPTH && at <= depth && EntriesFit(resolved, at)
    requires forall e <- es | e.key != "$ref" && !(root && KeywordOf(e.key) == Meta) ::
      Room(e.value, defs, depth + 1, at + 1, false)
    ensures EntriesFitAt(Merged(resolved, es, defs, depth), at, root)
    decreases Left(depth), 0, |es|
  {
    hide Fits, KeywordOf, Room, Walked;
    if es != [] {
      var n := |es| - 1;
      var e := es[n];
      SiblingsFit(resolved, es[..n], defs, depth, at, root);
      assert e in es;
      if e.key != "$ref" && !(root && KeywordOf(e.key) == Meta) {
        WalkFits(e.value, defs, depth + 1, at + 1);
      }
    }
  }

  lemma StrippedFits(es: seq<Entry>, at: nat)
    requires EntriesFitAt(es, at, true) && Clean(Obj(Stripped(es)))
    ensures EntriesFit(Stripped(es), at)
  {
    var r1 := Remove(es, "$schema");
    var r2 := Remove(r1, "$defs");
    var r3 := Remove(r2, "definitions");
    var r4 := Remove(r3, "$id");
    hide Fits, KeywordOf;
    RemoveFits(es, "$schema", at, true);
    RemoveFits(r1, "$defs", at, true);
    RemoveFits(r2, "definitions", at, true);
    RemoveFits(r3, "$id", at, true);
    RemoveFits(r4, "$comment", at, true);
    forall e <- Stripped(es) ensures e.key == "type" || Fits(e.value, at + 1) {
      var j :| 0 <= j < |Stripped(es)| && Stripped(es)[j] == e;
      assert CleanEntry(e.key, e.value);
    }
  }

  /** Sanitising twice is sanitising once, when the input leaves room for what the first pass adds; the depth
      cap may be reached, by cyclic definitions for instance. */
  lemma SanitizeIdempotent(schema: Value)
    requires CleanInput(schema, Definitions(schema), true) && CleanDefs(Definitions(schema))
    requires Room(schema, Definitions(schema), 0, 0, true)
    ensures Sanitized(Sanitized(schema)) == Sanitized(schema)
  {
    hide CleanInput, CleanDefs, Clean, Stripped;
    SanitizedIsClean(schema);
    SanitizedFits(schema);
    var out := Sanitized(schema);
    CleanWalksToItself(out, Definitions(out), 0);
    if out.Obj? {
      AllCleanIn(out.entries);
      StripNothing(out.entries);
    }
  }

  lemma AllCleanIn(es: seq<Entry>)
    requires Clean(Obj(es))
    ensures AllClean(es)
  {
    hide CleanEntry;
    forall k | 0 <= k < |es| ensures CleanEntry(es[k].key, es[k].value) {
      assert Obj(es).entries[k] == es[k];
    }
  }

  lemma SanitizedFits(schema: Value)
    requires Room(schema, Definitions(schema), 0, 0, true) && Clean(Sanitized(schema))
    ensures Fits(Sanitized(schema), 0)
  {
    var defs := Definitions(schema);
    hide Definitions, Clean, Stripped, Fits;
    if schema.Obj? {
      ObjectWalkFits(schema.entries, defs, 0, 0, true);
      var out := Walked(schema, defs, 0);
      if out.Obj? {
        StrippedFits(out.entries, 0);
        ObjectFits(Stripped(out.entries), 0);
      }
    } else {
      WalkFits(schema, defs, 0, 0);
    }
  }

  lemma StripNothing(es: seq<Entry>)
    requires AllClean(es)
    ensures Stripped(es) == es
  {
    KeywordMeta();
    hide KeywordOf, Clean;
    forall k | k in {"$schema", "$defs", "definitions", "$id", "$comment"}
      ensures Get(es, k).None?
    {
    }
    RemoveAbsent(es, "$schema");
    RemoveAbsent(es, "$defs");
    RemoveAbsent(es, "definitions");
    RemoveAbsent(es, "$id");
    RemoveAbsent(es, "$comment");
  }
}
