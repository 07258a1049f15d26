/** What schemas mean, and that the rewriting only relaxes them: every instance the input schema
    accepts is accepted by the output (JSON Schema 2020-12, Core sections 8.2.3.1 and 10.2.1,
    Validation section 6.1; `nullable: true` reads as "null is accepted too"). */
module SchemaMeaning {
  import opened Base
  import opened Schema
  import SchemaClean

  /** What the model leaves open: the meaning of keywords outside the fragment (`local`), any further
      constraint a schema object expresses, its dropped keywords for instance (`strict`), and
      references that do not resolve inside the document (`outside`). */
  datatype Oracle = Oracle(
    local: (string, Value, Value) -> bool,
    strict: (seq<Entry>, Value) -> bool,
    outside: (string, Value) -> bool)

  /** The output is read without the open constraints and without references. */
  function Plainly(o: Oracle): Oracle {
    Oracle(o.local, (es, i) => true, (r, i) => false)
  }

  predicate IsTypeName(t: string) {
    t in {"null", "boolean", "integer", "number", "string", "array", "object"}
  }

  predicate HasType(i: Value, t: string) {
    match i
    case Null => t == "null"
    case Bool(_) => t == "boolean"
    case Num(n) => t == "number" || (t == "integer" && n.Floor as real == n)
    case Str(_) => t == "string"
    case Arr(_) => t == "array"
    case Obj(_) => t == "object"
  }

  predicate TypeHolds(v: Value, i: Value) {
    match v
    case Str(t) => HasType(i, t)
    case Arr(items) => exists t <- items :: t.Str? && HasType(i, t.s)
    case _ => false
  }

  /** Does the schema accept the instance?  `fuel` bounds the number of references followed. */
  predicate Accepts(s: Value, i: Value, defs: seq<Entry>, fuel: nat, o: Oracle)
    decreases fuel, s, 0
  {
    match s
    case Bool(b) => b
    case Obj(es) =>
      || (i.Null? && Get(es, "nullable") == Some(Bool(true)))
      || (o.strict(es, i) && forall k :: 0 <= k < |es| ==> Holds(es[k].key, es[k].value, i, defs, fuel, o))
    case _ => false
  }

  /** One keyword. */
  predicate Holds(key: string, v: Value, i: Value, defs: seq<Entry>, fuel: nat, o: Oracle)
    decreases fuel, v, 1
  {
    match KeywordOf(key)
    case Type => TypeHolds(v, i)
    case Enum => v.Arr? && i in v.items
    case Const => i == v
    case Properties =>
      v.Obj? && (i.Obj? ==>
        forall p, q :: 0 <= p < |v.entries| && 0 <= q < |i.entries| && v.entries[p].key == i.entries[q].key ==>
          Accepts(v.entries[p].value, i.entries[q].value, defs, fuel, o))
    case Required =>
      v.Arr? && (i.Obj? ==> forall r <- v.items :: r.Str? && Has(i.entries, r.s))
    case Items =>
      i.Arr? ==> forall x <- i.items :: Accepts(v, x, defs, fuel, o)
    case AnyOf =>
      v.Arr? && exists m :: 0 <= m < |v.items| && Accepts(v.items[m], i, defs, fuel, o)
    case OneOf =>
      v.Arr? && exists m :: 0 <= m < |v.items| && Accepts(v.items[m], i, defs, fuel, o)
                            && forall n :: 0 <= n < |v.items| && n != m ==> !Accepts(v.items[n], i, defs, fuel, o)
    case Ref =>
      v.Str? && (match Resolve(v.s, defs)
                 case Some(t) => fuel > 0 && Accepts(t, i, defs, fuel - 1, o)
                 case None => o.outside(v.s, i))
    case Nullable => true
    case Meta => true
    case Note => true
    case Closed => o.local(key, v, i)
    case Plain => o.local(key, v, i)
  }

  // ---------------------------------------------------------------------------------------------
  // The fragment
  // ---------------------------------------------------------------------------------------------

  /** `chosen` admits every instance that type `t` admits. */
  predicate Covers(chosen: Option<Value>, t: Value) {
    || t == Str("null")
    || (t.Str? && IsTypeName(t.s) ==>
          chosen == Some(t) || (chosen == Some(Str("number")) && t == Str("integer")))
  }

  /** The first type but "null" in the list covers all the others. */
  predicate OneType(items: seq<Value>) {
    forall t <- items :: Covers(FirstNonNull(items), t)
  }

  predicate InFragment(s: Value, defs: seq<Entry>)
    decreases s, 0
  {
    s.Obj? ==>
      && (forall k :: 0 <= k < |s.entries| ==> KeywordInFragment(s.entries[k].key, s.entries[k].value, defs))
      && (Target(s.entries, defs).Some? && Target(s.entries, defs).value.Some? ==>
            forall e <- s.entries :: BesideRef(e.key, e.value))
  }

  /** Keywords that are copied beside a resolved reference must not need rewriting. */
  predicate BesideRef(key: string, v: Value) {
    match KeywordOf(key)
    case OneOf => false
    case Const => SchemaClean.Clean(v)
    case Closed => SchemaClean.Clean(v)
    case _ => true
  }

  /** A schema that means the same, or accepts more, when it is left as it is: no references, and no
      `oneOf`, which could lose instances when a member accepts more. */
  predicate Standing(s: Value)
    decreases s, 0
  {
    s.Obj? ==> forall k :: 0 <= k < |s.entries| ==> StandingKeyword(s.entries[k].key, s.entries[k].value)
  }

  predicate StandingKeyword(key: string, v: Value)
    decreases v, 1
  {
    match KeywordOf(key)
    case Ref => false
    case OneOf => false
    case Properties => v.Obj? ==> forall p :: 0 <= p < |v.entries| ==> Standing(v.entries[p].value)
    case Items => Standing(v)
    case AnyOf => v.Arr? ==> forall m :: 0 <= m < |v.items| ==> Standing(v.items[m])
    case _ => true
  }

  /** Values that are walked without being schemas must be clean: then the walk leaves them alone.  A property
      called `type` is taken for the keyword and copied as it is; properties called `const` or `oneOf` are
      taken for keywords and renamed. */
  predicate KeywordInFragment(key: string, v: Value, defs: seq<Entry>)
    decreases v, 1
  {
    match KeywordOf(key)
    case Type => v.Arr? ==> OneType(v.items)
    case Enum => v.Arr? ==> forall x <- v.items :: SchemaClean.Clean(x)
    case Properties =>
      v.Obj? ==> forall p :: 0 <= p < |v.entries| ==>
        && KeywordOf(v.entries[p].key) !in {Const, OneOf}
        && IsSchema(v.entries[p].value)
        && if KeywordOf(v.entries[p].key) == Type then Standing(v.entries[p].value)
           else InFragment(v.entries[p].value, defs)
    case Items => InFragment(v, defs)
    case AnyOf => v.Arr? ==> forall m :: 0 <= m < |v.items| ==> InFragment(v.items[m], defs)
    case OneOf => v.Arr? ==> forall m :: 0 <= m < |v.items| ==> InFragment(v.items[m], defs)
    case Nullable => false
    case Plain => SchemaClean.Clean(v)
    case _ => true
  }

  predicate IsSchema(v: Value) {
    v.Obj? || v.Bool?
  }

  predicate DefsInFragment(defs: seq<Entry>) {
    forall d <- defs :: IsSchema(d.value) && InFragment(d.value, defs)
  }

  /** The walk of this value never meets the depth cap, definitions unfolded. */
  predicate WithinCap(v: Value, defs: seq<Entry>, depth: nat)
    decreases Left(depth), v
  {
    depth <= MAX_DEPTH &&
    match v
    case Obj(es) =>
      (match Target(es, defs)
       case Some(Some(t)) =>
         && WithinCap(t, defs, depth + 1)
         && forall k :: 0 <= k < |es| && KeywordOf(es[k].key) !in {Ref, Meta} ==>
              WithinCap(es[k].value, defs, depth + 1)
       case _ =>
         forall k :: 0 <= k < |es| && KeywordOf(es[k].key) !in {Meta, Closed, Type, Const}
             && (es[k].key == "$ref" ==> !es[k].value.Str?)
           ==> WithinCap(es[k].value, defs, depth + 1))
    case Arr(items) => forall m :: 0 <= m < |items| ==> WithinCap(items[m], defs, depth + 1)
    case _ => true
  }

  // ---------------------------------------------------------------------------------------------
  // Reading the output
  // ---------------------------------------------------------------------------------------------

  predicate AllHold(es: seq<Entry>, i: Value, o: Oracle) {
    forall k :: 0 <= k < |es| ==> Holds(es[k].key, es[k].value, i, [], 0, Plainly(o))
  }

  predicate TakesNull(es: seq<Entry>, i: Value) {
    i.Null? && Get(es, "nullable") == Some(Bool(true))
  }

  predicate OutAccepts(es: seq<Entry>, i: Value, o: Oracle) {
    TakesNull(es, i) || AllHold(es, i, o)
  }

  lemma OutAcceptsIsAccepts(es: seq<Entry>, i: Value, o: Oracle)
    ensures Accepts(Obj(es), i, [], 0, Plainly(o)) <==> OutAccepts(es, i, o)
  {
  }

  /** Any `nullable` in an output object is `true`. */
  predicate NullableTrue(es: seq<Entry>) {
    forall e <- es :: e.key == "nullable" ==> e.value == Bool(true)
  }

  lemma NullableGet(es: seq<Entry>)
    requires NullableTrue(es) && Get(es, "nullable").Some?
    ensures Get(es, "nullable") == Some(Bool(true))
  {
    var v := Get(es, "nullable").value;
    var j :| 0 <= j < |es| && es[j] == Entry("nullable", v);
    assert es[j] in es;
  }

  lemma InsertAccepts(es: seq<Entry>, k: string, v: Value, i: Value, o: Oracle)
    requires OutAccepts(es, i, o) && Holds(k, v, i, [], 0, Plainly(o)) && k != "nullable"
    ensures OutAccepts(Insert(es, k, v), i, o)
  {
    hide Holds;
    var r := Insert(es, k, v);
    if TakesNull(es, i) {
      GetInsertOther(es, k, v, "nullable");
    } else {
      forall j | 0 <= j < |r|
        ensures Holds(r[j].key, r[j].value, i, [], 0, Plainly(o))
      {
        if r[j] != Entry(k, v) {
          assert r[j] in es;
        }
      }
    }
  }

  lemma OrInsertAccepts(es: seq<Entry>, k: string, v: Value, i: Value, o: Oracle)
    requires OutAccepts(es, i, o) && Holds(k, v, i, [], 0, Plainly(o))
    ensures OutAccepts(OrInsert(es, k, v), i, o)
  {
    hide Holds;
    GetAppend(es, Entry(k, v), "nullable");
  }

  lemma RemoveAccepts(es: seq<Entry>, k: string, i: Value, o: Oracle)
    requires OutAccepts(es, i, o) && k != "nullable"
    ensures OutAccepts(Remove(es, k), i, o)
  {
    hide Holds;
    var r := Remove(es, k);
    GetRemoveOther(es, k, "nullable");
    if AllHold(es, i, o) {
      forall j | 0 <= j < |r|
        ensures Holds(r[j].key, r[j].value, i, [], 0, Plainly(o))
      {
        assert r[j] in es;
      }
    }
  }

  // ---------------------------------------------------------------------------------------------
  // Types
  // ---------------------------------------------------------------------------------------------

  /** What the rewritten type accepts. */
  predicate RetypedAccepts(items: seq<Value>, i: Value) {
    || (i.Null? && Str("null") in items)
    || FirstNonNull(items).None?
    || TypeHolds(FirstNonNull(items).value, i)
  }

  /** An instance of the named type that no type but it, or one that covers it, admits. */
  function Sample(t: string): Value {
    if t == "null" then Null
    else if t == "boolean" then Bool(true)
    else if t == "integer" then Num(0.0)
    else if t == "number" then Num(0.5)
    else if t == "string" then Str("")
    else if t == "array" then Arr([])
    else Obj([])
  }

  lemma SampleTells(chosen: Value, t: string)
    requires IsTypeName(t) && t != "null"
    ensures HasType(Sample(t), t) && !Sample(t).Null?
    ensures TypeHolds(chosen, Sample(t)) && !chosen.Arr? ==> Covers(Some(chosen), Str(t))
  {
    var half := 0.5;
    assert half.Floor == 0;
  }

  /** A schema that only lists types. */
  function TypeList(items: seq<Value>): Value {
    Obj([Entry("type", Arr(items))])
  }

  /** Exactly when the rewriting of a type list keeps every instance: the first type but "null" covers the
      others. */
  lemma TypeCollapseExact(items: seq<Value>, o: Oracle)
    requires forall t <- items :: !t.Arr?
    ensures OneType(items)
       <==> forall i :: Accepts(TypeList(items), i, [], 0, Plainly(o)) ==>
              Accepts(Sanitized(TypeList(items)), i, [], 0, Plainly(o))
  {
    hide Accepts, Sanitized, TypeList, OneType, TypeHolds, RetypedAccepts;
    forall i
      ensures Accepts(TypeList(items), i, [], 0, Plainly(o)) <==> TypeHolds(Arr(items), i)
      ensures Accepts(Sanitized(TypeList(items)), i, [], 0, Plainly(o)) <==> RetypedAccepts(items, i)
    {
      TypeListAccepts(items, i, o);
      TypeListSanitized(items);
      RetypedIsAccepted(items, i, o);
    }
    CollapseExact(items);
    if OneType(items) {
      forall i | Accepts(TypeList(items), i, [], 0, Plainly(o))
        ensures Accepts(Sanitized(TypeList(items)), i, [], 0, Plainly(o))
      {
        assert TypeHolds(Arr(items), i);
      }
    } else {
      var i :| TypeHolds(Arr(items), i) && !RetypedAccepts(items, i);
      assert Accepts(TypeList(items), i, [], 0, Plainly(o))
             && !Accepts(Sanitized(TypeList(items)), i, [], 0, Plainly(o));
    }
  }

  /** A schema of one keyword means that keyword. */
  lemma OneKeyword(e: Entry, i: Value, defs: seq<Entry>, fuel: nat, o: Oracle)
    requires e.key != "nullable" && o.strict([e], i)
    ensures Accepts(Obj([e]), i, defs, fuel, o) <==> Holds(e.key, e.value, i, defs, fuel, o)
  {
    hide Holds;
    assert Get([e], "nullable").None?;
  }

  lemma TypeListAccepts(items: seq<Value>, i: Value, o: Oracle)
    ensures Accepts(TypeList(items), i, [], 0, Plainly(o)) <==> TypeHolds(Arr(items), i)
  {
    KeywordTable();
    hide KeywordOf, TypeHolds, Accepts;
    OneKeyword(Entry("type", Arr(items)), i, [], 0, Plainly(o));
  }

  /** The rewritten list is one type, `nullable` or not. */
  lemma TypeListSanitized(items: seq<Value>)
    ensures Sanitized(TypeList(items)) == Obj(Retyped(Arr(items), []))
  {
    hide Retyped, Walked, Stripped;
    TypeListWalked(items);
    RetypedKeys(items);
    NothingToStrip(Retyped(Arr(items), []));
    assert Definitions(TypeList(items)) == [];
  }

  lemma TypeListWalked(items: seq<Value>)
    ensures Walked(TypeList(items), [], 0) == Obj(Retyped(Arr(items), []))
  {
    SchemaClean.TypeIsType("type");
    hide KeywordOf, Retyped;
    var e := Entry("type", Arr(items));
    var out := Retyped(Arr(items), []);
    assert [e][..0] == [];
    assert WalkedEntries([e], [], 0) == WalkedEntry([], e, [], 0) == out;
    assert Get([e], "$ref").None?;
    RetypedKeys(items);
    NoSuchKey(out, "anyOf");
    assert Lifted(out) == out;
  }

  lemma RetypedKeys(items: seq<Value>)
    ensures forall e <- Retyped(Arr(items), []) :: e.key in {"type", "nullable"}
  {
  }

  lemma NoSuchKey(es: seq<Entry>, k: string)
    requires forall e <- es :: e.key != k
    ensures Get(es, k).None?
  {
  }

  lemma NothingToStrip(es: seq<Entry>)
    requires forall e <- es :: e.key in {"type", "nullable"}
    ensures Stripped(es) == es
  {
    hide Get, Remove;
    forall k | k in {"$schema", "$defs", "definitions", "$id", "$comment"} ensures Remove(es, k) == es {
      NoSuchKey(es, k);
      SchemaClean.RemoveAbsent(es, k);
    }
  }

  lemma RetypedIsAccepted(items: seq<Value>, i: Value, o: Oracle)
    ensures Accepts(Obj(Retyped(Arr(items), [])), i, [], 0, Plainly(o)) <==> RetypedAccepts(items, i)
  {
    FirstNonNullIn(items);
    KeywordTable();
    hide KeywordOf;
  }

  lemma CollapseExact(items: seq<Value>)
    requires forall t <- items :: !t.Arr?
    ensures OneType(items) <==> forall i :: TypeHolds(Arr(items), i) ==> RetypedAccepts(items, i)
  {
    FirstNonNullIn(items);
    var chosen := FirstNonNull(items);
    if OneType(items) {
      forall i | TypeHolds(Arr(items), i)
        ensures RetypedAccepts(items, i)
      {
        TypeCollapse(items, i);
      }
    } else {
      var t :| t in items && !Covers(chosen, t);
      SampleTells(chosen.value, t.s);
      var i := Sample(t.s);
      assert TypeHolds(Arr(items), i);
      assert !RetypedAccepts(items, i);
    }
  }

  lemma TypeCollapse(items: seq<Value>, i: Value)
    requires OneType(items) && TypeHolds(Arr(items), i)
    ensures RetypedAccepts(items, i)
  {
    FirstNonNullIn(items);
    var t :| t in items && t.Str? && HasType(i, t.s);
    assert IsTypeName(t.s);
    assert Covers(FirstNonNull(items), t);
  }

  // ---------------------------------------------------------------------------------------------
  // `nullable` in the output
  // ---------------------------------------------------------------------------------------------

  predicate NoArrayDefs(defs: seq<Entry>) {
    forall d <- defs :: !d.value.Arr?
  }

  lemma ResolvedIsDef(reference: string, defs: seq<Entry>)
    requires Resolve(reference, defs).Some?
    ensures exists d <- defs :: d.value == Resolve(reference, defs).value
  {
    var j :| 0 <= j < |defs| && defs[j].value == Resolve(reference, defs).value;
    assert defs[j] in defs;
  }

  lemma {:induction false} OnlyArraysWalkToArrays(v: Value, defs: seq<Entry>, depth: nat)
    requires NoArrayDefs(defs) && !v.Arr?
    ensures !Walked(v, defs, depth).Arr?
    decreases Left(depth), if v.Obj? then |v.entries| else 0
  {
    if v.Obj? && depth <= MAX_DEPTH {
      match Target(v.entries, defs) {
        case Some(Some(t)) =>
          ResolvedIsDef(Get(v.entries, "$ref").value.s, defs);
          OnlyArraysWalkToArrays(t, defs, depth + 1);
        case Some(None) =>
          OnlyArraysWalkToArrays(Obj(Remove(v.entries, "$ref")), defs, depth);
        case None =>
      }
    }
  }

  /** The object members of an `anyOf` in the output. */
  predicate MembersNullable(es: seq<Entry>) {
    forall e <- es :: e.key == "anyOf" && e.value.Arr? ==>
      forall m <- e.value.items :: m.Obj? ==> NullableTrue(m.entries)
  }

  predicate ValueNullable(v: Value) {
    v.Obj? ==> NullableTrue(v.entries)
  }

  lemma OrInsertAllNullable(es: seq<Entry>, more: seq<Entry>)
    requires NullableTrue(es) && NullableTrue(more)
    ensures NullableTrue(OrInsertAll(es, more))
  {
    OrInsertAllKeeps(es, more, "");
    var r := OrInsertAll(es, more);
    forall e <- r | e.key == "nullable" ensures e.value == Bool(true) {
      var j :| 0 <= j < |r| && r[j] == e;
      assert r[j] in es || r[j] in more;
    }
  }

  lemma LiftedNullable(out: seq<Entry>)
    requires NullableTrue(out) && MembersNullable(out)
    ensures NullableTrue(Lifted(out))
  {
    match Get(out, "anyOf") {
      case Some(Arr(arr)) =>
        var j :| 0 <= j < |out| && out[j] == Entry("anyOf", Arr(arr));
        assert out[j] in out;
        var kept := Retained(arr);
        var out1 := Insert(out, "anyOf", Arr(kept));
        assert NullableTrue(out1);
        var out2 := if |kept| != |arr| then OrInsert(out1, "nullable", Bool(true)) else out1;
        assert NullableTrue(out2);
        var rest := Remove(out2, "anyOf");
        assert NullableTrue(rest);
        if |kept| == 1 && kept[0].Obj? {
          assert kept[0] in kept;
          OrInsertAllNullable(rest, kept[0].entries);
        }
      case _ =>
    }
  }

  /** In the fragment, `nullable` only ever appears as `true`. */
  lemma {:induction false} WalkedNullable(v: Value, defs: seq<Entry>, depth: nat)
    requires InFragment(v, defs) && DefsInFragment(defs)
    ensures ValueNullable(Walked(v, defs, depth))
    decreases Left(depth), 2, 0
  {
    if v.Obj? && depth <= MAX_DEPTH {
      FragmentEntries(v.entries, defs);
      ObjectNullable(v.entries, defs, depth);
    }
  }

  lemma {:induction false} ObjectNullable(es: seq<Entry>, defs: seq<Entry>, depth: nat)
    requires depth <= MAX_DEPTH && EntriesIn(es, defs) && DefsInFragment(defs)
    ensures ValueNullable(WalkedObject(es, defs, depth))
    decreases Left(depth), 1, |es|
  {
    hide InFragment, Lifted, EntriesIn;
    match Target(es, defs) {
      case Some(Some(t)) =>
        ResolvedIsDef(Get(es, "$ref").value.s, defs);
        WalkedNullable(t, defs, depth + 1);
        if Walked(t, defs, depth + 1).Obj? {
          MergedNullable(Walked(t, defs, depth + 1).entries, es, defs, depth);
        }
      case Some(None) =>
        WithoutRef(es, defs);
        ObjectNullable(Remove(es, "$ref"), defs, depth);
      case None =>
        EntriesNullable(es, defs, depth);
        LiftedNullable(WalkedEntries(es, defs, depth));
    }
  }

  /** Every entry is in the fragment. */
  predicate EntriesIn(es: seq<Entry>, defs: seq<Entry>) {
    forall k :: 0 <= k < |es| ==> KeywordInFragment(es[k].key, es[k].value, defs)
  }

  lemma FragmentEntries(es: seq<Entry>, defs: seq<Entry>)
    requires InFragment(Obj(es), defs)
    ensures EntriesIn(es, defs)
  {
    hide KeywordInFragment;
    forall k | 0 <= k < |es| ensures KeywordInFragment(es[k].key, es[k].value, defs) {
      assert KeywordInFragment(Obj(es).entries[k].key, Obj(es).entries[k].value, defs);
    }
  }

  /** Dropping an unresolvable reference stays in the fragment. */
  lemma WithoutRef(es: seq<Entry>, defs: seq<Entry>)
    requires EntriesIn(es, defs)
    ensures EntriesIn(Remove(es, "$ref"), defs) && Target(Remove(es, "$ref"), defs) == None
  {
    hide KeywordInFragment;
    var r := Remove(es, "$ref");
    forall k | 0 <= k < |r| ensures KeywordInFragment(r[k].key, r[k].value, defs) {
      assert r[k] in es;
    }
  }

  lemma {:induction false} MergedNullable(resolved: seq<Entry>, es: seq<Entry>, defs: seq<Entry>, depth: nat)
    requires depth <= MAX_DEPTH && NullableTrue(resolved) && EntriesIn(es, defs)
    ensures NullableTrue(Merged(resolved, es, defs, depth))
    decreases |es|
  {
    if es != [] {
      var last := es[|es| - 1];
      EntryFacts(last.key, last.value, defs);
      hide KeywordInFragment, KeywordOf, NullableTrue, Walked;
      MergedNullable(resolved, es[..|es| - 1], defs, depth);
      OrInsertNullable(Merged(resolved, es[..|es| - 1], defs, depth), last.key, Walked(last.value, defs, depth + 1));
    }
  }

  lemma OrInsertNullable(es: seq<Entry>, k: string, v: Value)
    requires NullableTrue(es) && k != "nullable"
    ensures NullableTrue(OrInsert(es, k, v))
  {
  }

  lemma InsertNullable(es: seq<Entry>, k: string, v: Value)
    requires NullableTrue(es) && MembersNullable(es)
    requires k == "nullable" ==> v == Bool(true)
    requires k == "anyOf" && v.Arr? ==> forall m <- v.items :: ValueNullable(m)
    ensures NullableTrue(Insert(es, k, v)) && MembersNullable(Insert(es, k, v))
  {
  }

  lemma RetypedNullable(value: Value, es: seq<Entry>)
    requires NullableTrue(es) && MembersNullable(es)
    ensures NullableTrue(Retyped(value, es)) && MembersNullable(Retyped(value, es))
  {
    hide NullableTrue, MembersNullable;
    if !value.Arr? {
      InsertNullable(es, "type", value);
    } else {
      var chosen := FirstNonNull(value.items);
      var out1 := if chosen.Some? then Insert(es, "type", chosen.value) else es;
      if chosen.Some? {
        InsertNullable(es, "type", chosen.value);
      }
      InsertNullable(out1, "nullable", Bool(true));
    }
  }

  /** What the fragment says about keys that matter for `nullable`. */
  lemma EntryFacts(key: string, v: Value, defs: seq<Entry>)
    requires KeywordInFragment(key, v, defs)
    ensures KeywordOf(key) != Nullable && key != "nullable" && (key == "anyOf" <==> KeywordOf(key) == AnyOf)
    ensures KeywordOf(key) in {AnyOf, OneOf} && v.Arr? ==>
      forall m :: 0 <= m < |v.items| ==> InFragment(v.items[m], defs)
  {
    hide InFragment;
    KeywordTable();
  }

  lemma {:induction false} EntriesNullable(es: seq<Entry>, defs: seq<Entry>, depth: nat)
    requires depth <= MAX_DEPTH && EntriesIn(es, defs) && DefsInFragment(defs)
    ensures NullableTrue(WalkedEntries(es, defs, depth)) && MembersNullable(WalkedEntries(es, defs, depth))
    decreases Left(depth), 0, |es|
  {
    hide KeywordInFragment, DefsInFragment, WalkedEntry;
    if es != [] {
      var init, last := es[..|es| - 1], es[|es| - 1];
      EntriesNullable(init, defs, depth);
      EntryFacts(last.key, last.value, defs);
      if KeywordOf(last.key) in {AnyOf, OneOf} {
        MembersWalk(last.value, defs, depth + 1);
      }
      EntryNullable(WalkedEntries(init, defs, depth), last, defs, depth);
    }
  }

  lemma EntryNullable(acc: seq<Entry>, e: Entry, defs: seq<Entry>, depth: nat)
    requires depth <= MAX_DEPTH && NullableTrue(acc) && MembersNullable(acc)
    requires e.key != "nullable" && (e.key == "anyOf" <==> KeywordOf(e.key) == AnyOf)
    requires KeywordOf(e.key) in {AnyOf, OneOf} && Walked(e.value, defs, depth + 1).Arr? ==>
               forall m <- Walked(e.value, defs, depth + 1).items :: ValueNullable(m)
    ensures NullableTrue(WalkedEntry(acc, e, defs, depth)) && MembersNullable(WalkedEntry(acc, e, defs, depth))
  {
    hide NullableTrue, MembersNullable, KeywordOf, Retyped, Walked;
    var w := Walked(e.value, defs, depth + 1);
    match KeywordOf(e.key) {
      case OneOf => InsertNullable(acc, "anyOf", w);
      case Const => InsertNullable(acc, "enum", Arr([e.value]));
      case Meta =>
      case Closed =>
      case Type => RetypedNullable(e.value, acc);
      case _ => InsertNullable(acc, e.key, w);
    }
  }

  lemma {:induction false} MembersWalk(v: Value, defs: seq<Entry>, depth: nat)
    requires DefsInFragment(defs) && (v.Arr? ==> forall m :: 0 <= m < |v.items| ==> InFragment(v.items[m], defs))
    ensures Walked(v, defs, depth).Arr? ==> forall m <- Walked(v, defs, depth).items :: ValueNullable(m)
    decreases Left(depth), 3, 0
  {
    hide InFragment;
    if !v.Arr? {
      OnlyArraysWalkToArrays(v, defs, depth);
    } else if depth <= MAX_DEPTH {
      var r := WalkedItems(v.items, defs, depth + 1);
      forall m <- r ensures ValueNullable(m) {
        var j :| 0 <= j < |r| && r[j] == m;
        WalkedNullable(v.items[j], defs, depth + 1);
      }
    }
  }

  // ---------------------------------------------------------------------------------------------
  // Relaxation
  // ---------------------------------------------------------------------------------------------

  lemma OrInsertAllAccepts(es: seq<Entry>, more: seq<Entry>, i: Value, o: Oracle)
    requires AllHold(es, i, o) && AllHold(more, i, o)
    ensures AllHold(OrInsertAll(es, more), i, o)
  {
    hide Holds;
    OrInsertAllKeeps(es, more, "");
    var r := OrInsertAll(es, more);
    forall j | 0 <= j < |r|
      ensures Holds(r[j].key, r[j].value, i, [], 0, Plainly(o))
    {
      assert r[j] in es || r[j] in more;
    }
  }

  lemma SomeMember(out: seq<Entry>, arr: seq<Value>, i: Value, o: Oracle) returns (m: nat)
    requires Get(out, "anyOf") == Some(Arr(arr)) && AllHold(out, i, o)
    ensures m < |arr| && Accepts(arr[m], i, [], 0, Plainly(o))
  {
    hide Accepts, Get;
    KeywordTable();
    var j :| 0 <= j < |out| && out[j] == Entry("anyOf", Arr(arr));
    assert Holds(out[j].key, out[j].value, i, [], 0, Plainly(o)) by {
      assert out[j] in out;
    }
    hide KeywordOf;
    m :| 0 <= m < |arr| && Accepts(arr[m], i, [], 0, Plainly(o));
  }

  /** Lifting null out of `anyOf` and collapsing it keeps every accepted instance. */
  lemma LiftedAccepts(out: seq<Entry>, i: Value, o: Oracle)
    requires OutAccepts(out, i, o) && NullableTrue(out) && MembersNullable(out)
    ensures OutAccepts(Lifted(out), i, o)
  {
    match Get(out, "anyOf") {
      case Some(Arr(arr)) =>
        hide Lifted, Accepts, TakesNull, IsBareNull, ValueNullable, NullableTrue, KeywordOf, Get;
        var j :| 0 <= j < |out| && out[j] == Entry("anyOf", Arr(arr));
        assert out[j] in out;
        if TakesNull(out, i) {
          LiftedTakesNull(out, arr, i);
        } else {
          var m := SomeMember(out, arr, i, o);
          if IsBareNull(arr[m]) {
            BareNullAccepts(arr[m], i, o);
            LiftedNullMember(out, arr, m, i);
          } else {
            LiftedMember(out, arr, arr[m], i, o);
          }
        }
      case _ =>
    }
  }

  lemma BareNullAccepts(item: Value, i: Value, o: Oracle)
    requires IsBareNull(item) && Accepts(item, i, [], 0, Plainly(o))
    ensures i.Null?
  {
    KeywordTable();
    var es := item.entries;
    var j :| 0 <= j < |es| && es[j] == Entry("type", Str("null"));
    if !TakesNull(es, i) {
      assert Holds(es[j].key, es[j].value, i, [], 0, Plainly(o));
    }
  }

  lemma InsertTakesNull(out: seq<Entry>, kept: seq<Value>, i: Value)
    requires TakesNull(out, i)
    ensures TakesNull(Insert(out, "anyOf", Arr(kept)), i)
    ensures TakesNull(Remove(Insert(out, "anyOf", Arr(kept)), "anyOf"), i)
  {
    GetInsertOther(out, "anyOf", Arr(kept), "nullable");
    GetRemoveOther(Insert(out, "anyOf", Arr(kept)), "anyOf", "nullable");
  }

  lemma OrInsertTakesNull(es: seq<Entry>, i: Value)
    requires i.Null? && NullableTrue(es)
    ensures TakesNull(OrInsert(es, "nullable", Bool(true)), i)
  {
    if Get(es, "nullable").Some? {
      NullableGet(es);
    } else {
      GetAppend(es, Entry("nullable", Bool(true)), "nullable");
    }
  }

  lemma LiftedTakesNull(out: seq<Entry>, arr: seq<Value>, i: Value)
    requires Get(out, "anyOf") == Some(Arr(arr)) && TakesNull(out, i)
    ensures TakesNull(Lifted(out), i)
  {
    var kept := Retained(arr);
    var out1 := Insert(out, "anyOf", Arr(kept));
    InsertTakesNull(out, kept, i);
    assert OrInsert(out1, "nullable", Bool(true)) == out1;
    var rest := Remove(out1, "anyOf");
    if |kept| == 1 && kept[0].Obj? {
      OrInsertAllKeeps(rest, kept[0].entries, "nullable");
    }
  }

  lemma LiftedNullMember(out: seq<Entry>, arr: seq<Value>, m: nat, i: Value)
    requires Get(out, "anyOf") == Some(Arr(arr)) && NullableTrue(out)
    requires m < |arr| && IsBareNull(arr[m]) && i.Null?
    ensures TakesNull(Lifted(out), i)
  {
    var kept := Retained(arr);
    assert arr[m] in arr;
    var out1 := Insert(out, "anyOf", Arr(kept));
    assert NullableTrue(out1);
    OrInsertTakesNull(out1, i);
    var out2 := OrInsert(out1, "nullable", Bool(true));
    GetRemoveOther(out2, "anyOf", "nullable");
    if |kept| == 1 && kept[0].Obj? {
      OrInsertAllKeeps(Remove(out2, "anyOf"), kept[0].entries, "nullable");
    }
  }

  lemma LiftedIs(out: seq<Entry>, arr: seq<Value>)
    requires Get(out, "anyOf") == Some(Arr(arr))
    ensures var kept := Retained(arr);
            var shrunk := Shrunk(out, kept, |kept| != |arr|);
            var rest := Remove(shrunk, "anyOf");
            Lifted(out) == if |kept| > 1 then shrunk
                           else if |kept| == 1 && kept[0].Obj? then OrInsertAll(rest, kept[0].entries) else rest
  {
    hide Get, Insert, Remove, OrInsert, OrInsertAll, Retained;
  }

  /** The member that accepts the instance is retained; alone, it is merged into the parent. */
  lemma LiftedMember(out: seq<Entry>, arr: seq<Value>, member: Value, i: Value, o: Oracle)
    requires Get(out, "anyOf") == Some(Arr(arr)) && AllHold(out, i, o) && NullableTrue(out)
    requires member in arr && !IsBareNull(member) && Accepts(member, i, [], 0, Plainly(o))
    requires ValueNullable(member)
    ensures OutAccepts(Lifted(out), i, o)
  {
    hide Lifted, Shrunk, Holds, Accepts, AllHold, TakesNull, Get, Insert, Remove, OrInsertAll, NullableTrue, IsBareNull;
    LiftedIs(out, arr);
    var kept := Retained(arr);
    assert member in kept;
    MemberHolds(kept, member, i, o);
    ShrunkAccepts(out, kept, |kept| != |arr|, i, o);
    OutAcceptsIsAccepts(if member.Obj? then member.entries else [], i, o);
    if |kept| == 1 && kept[0].Obj? {
      CollapseAccepts(Remove(Shrunk(out, kept, |kept| != |arr|), "anyOf"), member.entries, i, o);
    }
  }

  function Shrunk(out: seq<Entry>, kept: seq<Value>, lost: bool): seq<Entry> {
    var out1 := Insert(out, "anyOf", Arr(kept));
    if lost then OrInsert(out1, "nullable", Bool(true)) else out1
  }

  lemma ShrunkAccepts(out: seq<Entry>, kept: seq<Value>, lost: bool, i: Value, o: Oracle)
    requires OutAccepts(out, i, o) && NullableTrue(out) && Holds("anyOf", Arr(kept), i, [], 0, Plainly(o))
    ensures var out2 := Shrunk(out, kept, lost);
            && OutAccepts(out2, i, o) && OutAccepts(Remove(out2, "anyOf"), i, o) && NullableTrue(Remove(out2, "anyOf"))
  {
    NullableHolds(i, o);
    hide Holds, Accepts;
    InsertAccepts(out, "anyOf", Arr(kept), i, o);
    var out1 := Insert(out, "anyOf", Arr(kept));
    assert NullableTrue(out1);
    OrInsertAccepts(out1, "nullable", Bool(true), i, o);
    RemoveAccepts(Shrunk(out, kept, lost), "anyOf", i, o);
  }

  lemma MemberHolds(kept: seq<Value>, member: Value, i: Value, o: Oracle)
    requires member in kept && Accepts(member, i, [], 0, Plainly(o))
    ensures Holds("anyOf", Arr(kept), i, [], 0, Plainly(o))
  {
    KeywordTable();
    var m :| 0 <= m < |kept| && kept[m] == member;
    assert Accepts(Arr(kept).items[m], i, [], 0, Plainly(o));
  }

  lemma NullableHolds(i: Value, o: Oracle)
    ensures Holds("nullable", Bool(true), i, [], 0, Plainly(o))
  {
    KeywordTable();
  }

  lemma CollapseAccepts(rest: seq<Entry>, single: seq<Entry>, i: Value, o: Oracle)
    requires OutAccepts(rest, i, o) && OutAccepts(single, i, o) && NullableTrue(rest)
    ensures OutAccepts(OrInsertAll(rest, single), i, o)
  {
    hide Holds;
    OrInsertAllKeeps(rest, single, "nullable");
    if TakesNull(single, i) {
      OrInsertAllAdds(rest, single, "nullable");
      if Get(rest, "nullable").Some? {
        NullableGet(rest);
      }
    } else if !TakesNull(rest, i) {
      OrInsertAllAccepts(rest, single, i, o);
    }
  }

  predicate AllHoldIn(es: seq<Entry>, i: Value, defs: seq<Entry>, fuel: nat, o: Oracle) {
    forall k :: 0 <= k < |es| ==> Holds(es[k].key, es[k].value, i, defs, fuel, o)
  }

  /** The walked values of an object without reference stay within the cap. */
  predicate EntriesWithin(es: seq<Entry>, defs: seq<Entry>, depth: nat) {
    forall k :: 0 <= k < |es| && KeywordOf(es[k].key) !in {Meta, Closed, Type, Const} ==>
      WithinCap(es[k].value, defs, depth + 1)
  }

  lemma {:induction false} CleanWithinFits(v: Value, defs: seq<Entry>, depth: nat)
    requires SchemaClean.Clean(v) && WithinCap(v, defs, depth)
    ensures SchemaClean.Fits(v, depth)
    decreases v
  {
    match v {
      case Obj(es) =>
        SchemaClean.NoReference(es);
        forall k | 0 <= k < |es| && es[k].key != "type" ensures SchemaClean.Fits(es[k].value, depth + 1) {
          assert SchemaClean.CleanEntry(es[k].key, es[k].value);
          NotType(es[k].key);
          CleanWithinFits(es[k].value, defs, depth + 1);
        }
      case Arr(items) =>
        forall m | 0 <= m < |items| ensures SchemaClean.Fits(items[m], depth + 1) {
          CleanWithinFits(items[m], defs, depth + 1);
        }
      case _ =>
    }
  }

  lemma NotType(key: string)
    ensures key != "type" ==> KeywordOf(key) != Type
  {
  }

  /** Within the cap the walk leaves a clean value alone. */
  lemma CleanWithinWalks(v: Value, defs: seq<Entry>, depth: nat)
    requires SchemaClean.Clean(v) && WithinCap(v, defs, depth)
    ensures Walked(v, defs, depth) == v
  {
    CleanWithinFits(v, defs, depth);
    SchemaClean.CleanWalksToItself(v, defs, depth);
  }

  lemma StringsWalk(items: seq<Value>, defs: seq<Entry>, depth: nat)
    requires forall m :: 0 <= m < |items| ==> WithinCap(items[m], defs, depth)
    ensures forall m :: 0 <= m < |items| && items[m].Str? ==> WalkedItems(items, defs, depth)[m] == items[m]
  {
  }

  /** Clean enum values are still there after the walk. */
  lemma EnumWalks(items: seq<Value>, i: Value, defs: seq<Entry>, depth: nat)
    requires WithinCap(Arr(items), defs, depth) && (forall x <- items :: SchemaClean.Clean(x)) && i in items
    ensures Walked(Arr(items), defs, depth).Arr? && i in Walked(Arr(items), defs, depth).items
  {
    var j :| 0 <= j < |items| && items[j] == i;
    assert WithinCap(Arr(items).items[j], defs, depth + 1);
    CleanWithinWalks(i, defs, depth + 1);
    assert WalkedItems(items, defs, depth + 1)[j] == i;
  }

  lemma {:induction false} StandingRelaxes(s: Value, i: Value, defs: seq<Entry>, fuel: nat, o: Oracle)
    requires Standing(s) && Accepts(s, i, defs, fuel, o)
    ensures Accepts(s, i, [], 0, Plainly(o))
    decreases s, 0
  {
    if s.Obj? && !TakesNull(s.entries, i) {
      forall k | 0 <= k < |s.entries| ensures Holds(s.entries[k].key, s.entries[k].value, i, [], 0, Plainly(o)) {
        StandingHolds(s.entries[k].key, s.entries[k].value, i, defs, fuel, o);
      }
    }
  }

  lemma {:induction false} StandingHolds(key: string, v: Value, i: Value, defs: seq<Entry>, fuel: nat, o: Oracle)
    requires StandingKeyword(key, v) && Holds(key, v, i, defs, fuel, o)
    ensures Holds(key, v, i, [], 0, Plainly(o))
    decreases v, 1
  {
    hide KeywordOf, Standing, Accepts;
    var kw := KeywordOf(key);
    if kw == Properties && i.Obj? {
      forall p, q | 0 <= p < |v.entries| && 0 <= q < |i.entries| && v.entries[p].key == i.entries[q].key
        ensures Accepts(v.entries[p].value, i.entries[q].value, [], 0, Plainly(o))
      {
        StandingRelaxes(v.entries[p].value, i.entries[q].value, defs, fuel, o);
      }
    } else if kw == Items && i.Arr? {
      forall x <- i.items ensures Accepts(v, x, [], 0, Plainly(o)) {
        StandingRelaxes(v, x, defs, fuel, o);
      }
    } else if kw == AnyOf {
      var m :| 0 <= m < |v.items| && Accepts(v.items[m], i, defs, fuel, o);
      StandingRelaxes(v.items[m], i, defs, fuel, o);
    }
  }

  /** A keyword whose value is walked, or copied beside a reference, still holds. */
  lemma {:induction false} HoldsRelaxes(key: string, v: Value, i: Value, defs: seq<Entry>, depth: nat, fuel: nat,
                                        o: Oracle)
    requires KeywordInFragment(key, v, defs) && BesideRef(key, v) && DefsInFragment(defs)
    requires KeywordOf(key) != Ref && (KeywordOf(key) != Meta ==> WithinCap(v, defs, depth))
    requires Holds(key, v, i, defs, fuel, o)
    ensures Holds(key, Walked(v, defs, depth), i, [], 0, Plainly(o))
    decreases Left(depth), 3, 0
  {
    hide KeywordOf, Standing;
    match KeywordOf(key) {
      case Type => TypeWalks(v, i, defs, depth);
      case Enum => EnumWalks(v.items, i, defs, depth);
      case Const => CleanWithinWalks(v, defs, depth);
      case Properties => PropertiesRelax(key, v.entries, i, defs, depth, fuel, o);
      case Required => RequiredWalks(v.items, i, defs, depth);
      case Items => ItemsRelax(v, i, defs, depth, fuel, o);
      case AnyOf => AnyRelaxes(v.items, i, defs, depth, fuel, o);
      case Closed => CleanWithinWalks(v, defs, depth);
      case Plain => CleanWithinWalks(v, defs, depth);
      case Meta =>
      case Note =>
    }
  }

  lemma {:induction false} ItemsRelax(v: Value, i: Value, defs: seq<Entry>, depth: nat, fuel: nat, o: Oracle)
    requires InFragment(v, defs) && DefsInFragment(defs) && WithinCap(v, defs, depth)
    requires i.Arr? ==> forall x <- i.items :: Accepts(v, x, defs, fuel, o)
    ensures i.Arr? ==> forall x <- i.items :: Accepts(Walked(v, defs, depth), x, [], 0, Plainly(o))
    decreases Left(depth), 2, 1
  {
    hide InFragment, Accepts, WithinCap, Walked;
    if i.Arr? {
      forall x <- i.items ensures Accepts(Walked(v, defs, depth), x, [], 0, Plainly(o)) {
        WalkRelaxes(v, x, defs, depth, fuel, o);
      }
    }
  }

  lemma TypeWalks(v: Value, i: Value, defs: seq<Entry>, depth: nat)
    requires TypeHolds(v, i) && WithinCap(v, defs, depth)
    ensures TypeHolds(Walked(v, defs, depth), i)
  {
    if v.Arr? {
      StringsWalk(v.items, defs, depth + 1);
      var t :| t in v.items && t.Str? && HasType(i, t.s);
      var j :| 0 <= j < |v.items| && v.items[j] == t;
      assert WalkedItems(v.items, defs, depth + 1)[j] == t;
    }
  }

  lemma RequiredWalks(items: seq<Value>, i: Value, defs: seq<Entry>, depth: nat)
    requires WithinCap(Arr(items), defs, depth)
    requires i.Obj? ==> forall r <- items :: r.Str? && Has(i.entries, r.s)
    ensures i.Obj? ==>
      && Walked(Arr(items), defs, depth).Arr?
      && forall r <- Walked(Arr(items), defs, depth).items :: r.Str? && Has(i.entries, r.s)
  {
    StringsWalk(items, defs, depth + 1);
    if i.Obj? {
      var w := WalkedItems(items, defs, depth + 1);
      forall r <- w ensures r.Str? && Has(i.entries, r.s) {
        var j :| 0 <= j < |w| && w[j] == r;
        assert items[j] in items;
      }
    }
  }

  /** An accepted member is accepted after the walk; shared by `anyOf` and `oneOf`. */
  lemma {:induction false} AnyRelaxes(items: seq<Value>, i: Value, defs: seq<Entry>, depth: nat, fuel: nat, o: Oracle)
    requires DefsInFragment(defs) && WithinCap(Arr(items), defs, depth)
    requires forall m :: 0 <= m < |items| ==> InFragment(items[m], defs)
    requires exists m :: 0 <= m < |items| && Accepts(items[m], i, defs, fuel, o)
    ensures var w := Walked(Arr(items), defs, depth);
            w.Arr? && exists m :: 0 <= m < |w.items| && Accepts(w.items[m], i, [], 0, Plainly(o))
    decreases Left(depth), 2, 1
  {
    hide InFragment, Accepts, KeywordOf, DefsInFragment;
    var m :| 0 <= m < |items| && Accepts(items[m], i, defs, fuel, o);
    assert WithinCap(Arr(items).items[m], defs, depth + 1);
    WalkRelaxes(items[m], i, defs, depth + 1, fuel, o);
    assert Accepts(Walked(Arr(items), defs, depth).items[m], i, [], 0, Plainly(o));
  }

  // Properties.  The walk treats the map of properties as if it were a schema object.

  predicate PropertiesIn(ps: seq<Entry>, defs: seq<Entry>) {
    forall p :: 0 <= p < |ps| ==>
      && KeywordOf(ps[p].key) !in {Const, OneOf}
      && IsSchema(ps[p].value)
      && if KeywordOf(ps[p].key) == Type then Standing(ps[p].value) else InFragment(ps[p].value, defs)
  }

  predicate PropertiesHold(ps: seq<Entry>, i: Value, defs: seq<Entry>, fuel: nat, o: Oracle) {
    i.Obj? ==> forall p, q :: 0 <= p < |ps| && 0 <= q < |i.entries| && ps[p].key == i.entries[q].key ==>
      Accepts(ps[p].value, i.entries[q].value, defs, fuel, o)
  }

  predicate NoArrays(es: seq<Entry>) {
    forall e <- es :: !e.value.Arr?
  }

  lemma {:induction false} PropertiesRelax(key: string, ps: seq<Entry>, i: Value, defs: seq<Entry>, depth: nat,
                                           fuel: nat, o: Oracle)
    requires KeywordOf(key) == Properties && DefsInFragment(defs) && WithinCap(Obj(ps), defs, depth)
    requires PropertiesIn(ps, defs) && PropertiesHold(ps, i, defs, fuel, o)
    ensures Holds(key, Walked(Obj(ps), defs, depth), i, [], 0, Plainly(o))
    decreases Left(depth), 1, |ps|
  {
    hide KeywordOf, InFragment;
    PropertiesNoRef(ps, defs);
    var out := WalkedEntries(ps, defs, depth);
    PropertyEntries(ps, i, defs, depth, fuel, o);
    if Get(out, "anyOf").Some? {
      var v := Get(out, "anyOf").value;
      var j :| 0 <= j < |out| && out[j] == Entry("anyOf", v);
      assert out[j] in out;
    }
    assert Walked(Obj(ps), defs, depth) == Obj(out);
  }

  lemma PropertiesNoRef(ps: seq<Entry>, defs: seq<Entry>)
    requires PropertiesIn(ps, defs)
    ensures Target(ps, defs) == None
    ensures forall k :: 0 <= k < |ps| && ps[k].key == "$ref" ==> !ps[k].value.Str?
  {
    hide InFragment, KeywordOf;
    if Get(ps, "$ref").Some? {
      var v := Get(ps, "$ref").value;
      var j :| 0 <= j < |ps| && ps[j] == Entry("$ref", v);
    }
  }

  lemma LastPropertyWalks(ps: seq<Entry>, defs: seq<Entry>, depth: nat)
    requires depth <= MAX_DEPTH && ps != [] && KeywordOf(ps[|ps| - 1].key) !in {Const, OneOf}
    requires KeywordOf(ps[|ps| - 1].key) == Type ==> !ps[|ps| - 1].value.Arr?
    ensures var last := ps[|ps| - 1];
            var before := WalkedEntries(ps[..|ps| - 1], defs, depth);
            WalkedEntries(ps, defs, depth)
            == if KeywordOf(last.key) in {Meta, Closed} then before
               else Insert(before, last.key, PropertyWalked(last, defs, depth))
  {
    SchemaClean.TypeIsType(ps[|ps| - 1].key);
    hide KeywordOf, Insert, Walked;
  }

  lemma {:induction false} PropertyEntries(ps: seq<Entry>, i: Value, defs: seq<Entry>, depth: nat, fuel: nat, o: Oracle)
    requires depth <= MAX_DEPTH && DefsInFragment(defs) && EntriesWithin(ps, defs, depth)
    requires PropertiesIn(ps, defs) && PropertiesHold(ps, i, defs, fuel, o)
    ensures PropertiesHold(WalkedEntries(ps, defs, depth), i, [], 0, Plainly(o))
            && NoArrays(WalkedEntries(ps, defs, depth))
    decreases Left(depth), 0, |ps|
  {
    hide KeywordOf, InFragment, Accepts, WithinCap, Walked, WalkedEntries, Insert, Plainly, Standing, NoArrays;
    hide EntriesWithin;
    hide PropertiesHold, PropertiesIn;
    if ps == [] {
      NoPropertiesHold(i, defs, depth, o);
    } else {
      var n := |ps| - 1;
      var init, last := ps[..n], ps[n];
      PropertiesSplit(ps, i, defs, depth, fuel, o);
      PropertyEntries(init, i, defs, depth, fuel, o);
      LastPropertyWalks(ps, defs, depth);
      if KeywordOf(last.key) !in {Meta, Closed} {
        if i.Obj? {
          forall q | 0 <= q < |i.entries| && last.key == i.entries[q].key
            ensures Accepts(PropertyWalked(last, defs, depth), i.entries[q].value, [], 0, Plainly(o))
          {
            PropertyRelaxes(last, i.entries[q].value, defs, depth, fuel, o);
          }
        }
        WalkedIsNoArray(last, defs, depth);
        PropertyInsert(WalkedEntries(init, defs, depth), last.key, PropertyWalked(last, defs, depth), i, o);
      }
    }
  }

  lemma NoPropertiesHold(i: Value, defs: seq<Entry>, depth: nat, o: Oracle)
    requires depth <= MAX_DEPTH
    ensures PropertiesHold(WalkedEntries([], defs, depth), i, [], 0, Plainly(o))
            && NoArrays(WalkedEntries([], defs, depth))
  {
  }

  lemma WalkedIsNoArray(p: Entry, defs: seq<Entry>, depth: nat)
    requires depth <= MAX_DEPTH && DefsInFragment(defs) && PropertiesIn([p], defs)
    ensures !PropertyWalked(p, defs, depth).Arr?
  {
    hide KeywordOf, InFragment, Walked;
    assert IsSchema([p][0].value);
    OnlyArraysWalkToArrays(p.value, defs, depth + 1);
  }

  /** What is required of all properties is required of the last one and of those before it. */
  lemma PropertiesSplit(ps: seq<Entry>, i: Value, defs: seq<Entry>, depth: nat, fuel: nat, o: Oracle)
    requires ps != [] && EntriesWithin(ps, defs, depth)
    requires PropertiesIn(ps, defs) && PropertiesHold(ps, i, defs, fuel, o)
    ensures var n := |ps| - 1;
            && EntriesWithin(ps[..n], defs, depth) && EntriesWithin([ps[n]], defs, depth)
            && PropertiesIn(ps[..n], defs) && PropertiesIn([ps[n]], defs) && PropertiesHold(ps[..n], i, defs, fuel, o)
            && KeywordOf(ps[n].key) !in {Const, OneOf}
            && (KeywordOf(ps[n].key) == Type ==> !ps[n].value.Arr?)
            && (i.Obj? ==> forall q :: 0 <= q < |i.entries| && ps[n].key == i.entries[q].key
                             ==> Accepts(ps[n].value, i.entries[q].value, defs, fuel, o))
  {
    hide KeywordOf, InFragment, Accepts, WithinCap, Standing;
    assert IsSchema(ps[|ps| - 1].value);
  }

  /** What the walk makes of the schema of one property. */
  function PropertyWalked(p: Entry, defs: seq<Entry>, depth: nat): Value
    requires depth <= MAX_DEPTH
  {
    if KeywordOf(p.key) == Type then p.value else Walked(p.value, defs, depth + 1)
  }

  lemma PropertyRelaxes(p: Entry, i: Value, defs: seq<Entry>, depth: nat, fuel: nat, o: Oracle)
    requires depth <= MAX_DEPTH && DefsInFragment(defs) && PropertiesIn([p], defs) && EntriesWithin([p], defs, depth)
    requires KeywordOf(p.key) !in {Meta, Closed} && Accepts(p.value, i, defs, fuel, o)
    ensures Accepts(PropertyWalked(p, defs, depth), i, [], 0, Plainly(o))
    decreases Left(depth), 0, 0
  {
    hide KeywordOf, InFragment, Accepts, WithinCap, Walked, Plainly, Standing;
    assert [p][0] == p;
    if KeywordOf(p.key) == Type {
      StandingRelaxes(p.value, i, defs, fuel, o);
    } else {
      WalkRelaxes(p.value, i, defs, depth + 1, fuel, o);
    }
  }

  lemma PropertyInsert(es: seq<Entry>, k: string, v: Value, i: Value, o: Oracle)
    requires PropertiesHold(es, i, [], 0, Plainly(o)) && NoArrays(es) && !v.Arr?
    requires i.Obj? ==> forall q :: 0 <= q < |i.entries| && k == i.entries[q].key ==>
      Accepts(v, i.entries[q].value, [], 0, Plainly(o))
    ensures PropertiesHold(Insert(es, k, v), i, [], 0, Plainly(o)) && NoArrays(Insert(es, k, v))
  {
    hide Accepts;
    var r := Insert(es, k, v);
    if i.Obj? {
      forall p, q | 0 <= p < |r| && 0 <= q < |i.entries| && r[p].key == i.entries[q].key
        ensures Accepts(r[p].value, i.entries[q].value, [], 0, Plainly(o))
      {
        if r[p] != Entry(k, v) {
          assert r[p] in es;
        }
      }
    }
  }

  // Entries

  lemma RetypedAccept(value: Value, acc: seq<Entry>, i: Value, o: Oracle)
    requires OutAccepts(acc, i, o) && TypeHolds(value, i) && (value.Arr? ==> OneType(value.items))
    ensures OutAccepts(Retyped(value, acc), i, o)
  {
    KeywordTable();
    if !value.Arr? {
      InsertAccepts(acc, "type", value, i, o);
    } else {
      TypeCollapse(value.items, i);
      FirstNonNullIn(value.items);
      RetypedArray(value.items, acc, i, o);
    }
  }

  lemma RetypedArray(items: seq<Value>, acc: seq<Entry>, i: Value, o: Oracle)
    requires OutAccepts(acc, i, o) && RetypedAccepts(items, i)
    ensures OutAccepts(Retyped(Arr(items), acc), i, o)
  {
    KeywordTable();
    var chosen := FirstNonNull(items);
    var out1 := if chosen.Some? then Insert(acc, "type", chosen.value) else acc;
    if i.Null? && Str("null") in items {
      assert TakesNull(Insert(out1, "nullable", Bool(true)), i);
    } else {
      if chosen.Some? {
        assert Holds("type", chosen.value, i, [], 0, Plainly(o));
        InsertAccepts(acc, "type", chosen.value, i, o);
      }
      NullableHolds(i, o);
      InsertNullableAccepts(out1, i, o);
    }
  }

  lemma InsertNullableAccepts(es: seq<Entry>, i: Value, o: Oracle)
    requires OutAccepts(es, i, o)
    ensures OutAccepts(Insert(es, "nullable", Bool(true)), i, o)
  {
    NullableHolds(i, o);
    hide Holds;
    var r := Insert(es, "nullable", Bool(true));
    if !i.Null? {
      forall j | 0 <= j < |r|
        ensures Holds(r[j].key, r[j].value, i, [], 0, Plainly(o))
      {
        if r[j] != Entry("nullable", Bool(true)) {
          assert r[j] in es;
        }
      }
    }
  }

  lemma {:induction false} EntriesRelax(es: seq<Entry>, i: Value, defs: seq<Entry>, depth: nat, fuel: nat, o: Oracle)
    requires depth <= MAX_DEPTH && DefsInFragment(defs) && EntriesIn(es, defs) && EntriesWithin(es, defs, depth)
    requires AllHoldIn(es, i, defs, fuel, o) && forall e <- es :: KeywordOf(e.key) != Ref
    ensures OutAccepts(WalkedEntries(es, defs, depth), i, o)
    decreases Left(depth), 0, |es|
  {
    if es != [] {
      var n := |es| - 1;
      EntriesRelax(es[..n], i, defs, depth, fuel, o);
      assert es[n] in es;
      EntryRelax(WalkedEntries(es[..n], defs, depth), es[n], i, defs, depth, fuel, o);
    }
  }

  lemma {:induction false} EntryRelax(acc: seq<Entry>, e: Entry, i: Value, defs: seq<Entry>, depth: nat, fuel: nat,
                                      o: Oracle)
    requires depth <= MAX_DEPTH && DefsInFragment(defs) && KeywordInFragment(e.key, e.value, defs)
             && KeywordOf(e.key) != Ref
    requires KeywordOf(e.key) !in {Meta, Closed, Type, Const} ==> WithinCap(e.value, defs, depth + 1)
    requires OutAccepts(acc, i, o) && Holds(e.key, e.value, i, defs, fuel, o)
    ensures OutAccepts(WalkedEntry(acc, e, defs, depth), i, o)
    decreases Left(depth), 0, 0
  {
    hide KeywordOf, OutAccepts, Walked, Retyped, InFragment;
    EntryFacts(e.key, e.value, defs);
    var w := Walked(e.value, defs, depth + 1);
    var kw := KeywordOf(e.key);
    if kw == Type {
      RetypedAccept(e.value, acc, i, o);
    } else if kw == Const {
      ConstAsEnum(e.value, o);
      InsertAccepts(acc, "enum", Arr([e.value]), i, o);
    } else if kw == OneOf {
      AnyRelaxes(e.value.items, i, defs, depth + 1, fuel, o);
      AnyHolds(w, i, o);
      InsertAccepts(acc, "anyOf", w, i, o);
    } else if kw !in {Meta, Closed} {
      HoldsRelaxes(e.key, e.value, i, defs, depth + 1, fuel, o);
      InsertAccepts(acc, e.key, w, i, o);
    }
  }

  lemma ConstAsEnum(v: Value, o: Oracle)
    ensures Holds("enum", Arr([v]), v, [], 0, Plainly(o))
  {
    KeywordTable();
  }

  lemma AnyHolds(w: Value, i: Value, o: Oracle)
    requires w.Arr? && exists m :: 0 <= m < |w.items| && Accepts(w.items[m], i, [], 0, Plainly(o))
    ensures Holds("anyOf", w, i, [], 0, Plainly(o))
  {
    KeywordTable();
  }

  /** Siblings of a resolved reference are merged only where the target is silent. */
  lemma {:induction false} MergedRelax(resolved: seq<Entry>, es: seq<Entry>, i: Value, defs: seq<Entry>, depth: nat,
                                       fuel: nat, o: Oracle)
    requires depth <= MAX_DEPTH && DefsInFragment(defs) && EntriesIn(es, defs) && AllHoldIn(es, i, defs, fuel, o)
    requires forall k :: 0 <= k < |es| ==> BesideRef(es[k].key, es[k].value)
    requires forall k :: 0 <= k < |es| && KeywordOf(es[k].key) !in {Ref, Meta} ==>
      WithinCap(es[k].value, defs, depth + 1)
    requires OutAccepts(resolved, i, o)
    ensures OutAccepts(Merged(resolved, es, defs, depth), i, o)
    decreases Left(depth), 0, |es|
  {
    hide KeywordInFragment, BesideRef, Holds, WithinCap, KeywordOf, OutAccepts;
    if es != [] {
      var n := |es| - 1;
      MergedRelax(resolved, es[..n], i, defs, depth, fuel, o);
      SiblingRelaxes(Merged(resolved, es[..n], defs, depth), es[n], i, defs, depth, fuel, o);
    }
  }

  lemma {:induction false} SiblingRelaxes(acc: seq<Entry>, e: Entry, i: Value, defs: seq<Entry>, depth: nat, fuel: nat,
                                          o: Oracle)
    requires depth <= MAX_DEPTH && DefsInFragment(defs) && KeywordInFragment(e.key, e.value, defs)
             && BesideRef(e.key, e.value)
    requires KeywordOf(e.key) !in {Ref, Meta} ==> WithinCap(e.value, defs, depth + 1)
    requires OutAccepts(acc, i, o) && Holds(e.key, e.value, i, defs, fuel, o)
    ensures e.key != "$ref" ==> OutAccepts(OrInsert(acc, e.key, Walked(e.value, defs, depth + 1)), i, o)
    decreases Left(depth), 0, 0
  {
    KeywordTable();
    hide KeywordInFragment, BesideRef, Holds, WithinCap, KeywordOf, OutAccepts, Walked;
    if e.key != "$ref" {
      HoldsRelaxes(e.key, e.value, i, defs, depth + 1, fuel, o);
      OrInsertAccepts(acc, e.key, Walked(e.value, defs, depth + 1), i, o);
    }
  }

  lemma {:induction false} WalkRelaxes(v: Value, i: Value, defs: seq<Entry>, depth: nat, fuel: nat, o: Oracle)
    requires InFragment(v, defs) && DefsInFragment(defs) && WithinCap(v, defs, depth)
    requires Accepts(v, i, defs, fuel, o)
    ensures Accepts(Walked(v, defs, depth), i, [], 0, Plainly(o))
    decreases Left(depth), 2, 0
  {
    hide KeywordOf, KeywordInFragment, Holds, WalkedObject;
    if v.Obj? {
      NotNullable(v.entries, defs);
      ObjectRelaxes(v.entries, i, defs, depth, fuel, o);
    }
  }

  lemma NotNullable(es: seq<Entry>, defs: seq<Entry>)
    requires InFragment(Obj(es), defs)
    ensures Get(es, "nullable").None?
  {
    hide KeywordOf;
    var v := Get(es, "nullable");
    if v.Some? {
      var j :| 0 <= j < |es| && es[j] == Entry("nullable", v.value);
      assert KeywordInFragment(Obj(es).entries[j].key, es[j].value, defs);
      EntryFacts("nullable", v.value, defs);
    }
  }

  /** The rewriting of an object without a reference. */
  lemma PlainObjectRelaxes(es: seq<Entry>, i: Value, defs: seq<Entry>, depth: nat, fuel: nat, o: Oracle)
    requires depth <= MAX_DEPTH && DefsInFragment(defs) && EntriesIn(es, defs) && EntriesWithin(es, defs, depth)
    requires AllHoldIn(es, i, defs, fuel, o) && Get(es, "$ref").None?
    ensures Accepts(Obj(Lifted(WalkedEntries(es, defs, depth))), i, [], 0, Plainly(o))
    decreases Left(depth), 0, |es| + 1
  {
    KeywordTable();
    hide KeywordOf, Accepts, Lifted;
    forall e <- es ensures KeywordOf(e.key) != Ref {
      var j :| 0 <= j < |es| && es[j] == e;
    }
    EntriesRelax(es, i, defs, depth, fuel, o);
    EntriesNullable(es, defs, depth);
    LiftedAccepts(WalkedEntries(es, defs, depth), i, o);
    OutAcceptsIsAccepts(Lifted(WalkedEntries(es, defs, depth)), i, o);
  }

  lemma RefHolds(es: seq<Entry>, i: Value, defs: seq<Entry>, fuel: nat, o: Oracle)
    requires AllHoldIn(es, i, defs, fuel, o)
    ensures match Target(es, defs)
            case Some(Some(t)) => fuel > 0 && Accepts(t, i, defs, fuel - 1, o)
            case Some(None) => true
            case None => Get(es, "$ref").None?
  {
    Schema.KeywordAnyOneRef();
    hide KeywordOf, Accepts;
    if Get(es, "$ref").Some? {
      var v := Get(es, "$ref").value;
      var j :| 0 <= j < |es| && es[j] == Entry("$ref", v);
      assert Holds(es[j].key, es[j].value, i, defs, fuel, o);
    }
  }

  lemma RemovedRef(es: seq<Entry>, i: Value, defs: seq<Entry>, depth: nat, fuel: nat, o: Oracle)
    requires depth <= MAX_DEPTH && EntriesIn(es, defs) && AllHoldIn(es, i, defs, fuel, o)
    requires WithinCap(Obj(es), defs, depth) && Target(es, defs) == Some(None)
    ensures var r := Remove(es, "$ref");
            && EntriesIn(r, defs) && AllHoldIn(r, i, defs, fuel, o) && EntriesWithin(r, defs, depth)
              && Get(r, "$ref").None?
            && WalkedObject(es, defs, depth) == Obj(Lifted(WalkedEntries(r, defs, depth)))
  {
    WithoutRef(es, defs);
    hide KeywordInFragment, Holds, Lifted, WalkedEntries, KeywordOf;
    var r := Remove(es, "$ref");
    forall k | 0 <= k < |r|
      ensures Holds(r[k].key, r[k].value, i, defs, fuel, o)
      ensures KeywordOf(r[k].key) !in {Meta, Closed, Type, Const} ==> WithinCap(r[k].value, defs, depth + 1)
    {
      assert r[k] in es;
      var j :| 0 <= j < |es| && es[j] == r[k];
    }
  }

  lemma {:induction false} ObjectRelaxes(es: seq<Entry>, i: Value, defs: seq<Entry>, depth: nat, fuel: nat, o: Oracle)
    requires depth <= MAX_DEPTH && InFragment(Obj(es), defs) && DefsInFragment(defs) && WithinCap(Obj(es), defs, depth)
    requires AllHoldIn(es, i, defs, fuel, o)
    ensures Accepts(WalkedObject(es, defs, depth), i, [], 0, Plainly(o))
    decreases Left(depth), 1, |es|
  {
    FragmentEntries(es, defs);
    RefHolds(es, i, defs, fuel, o);
    match Target(es, defs) {
      case Some(Some(t)) =>
        ReferenceRelaxes(es, t, i, defs, depth, fuel, o);
      case Some(None) =>
        RemovedRef(es, i, defs, depth, fuel, o);
        PlainObjectRelaxes(Remove(es, "$ref"), i, defs, depth, fuel, o);
      case None =>
        PlainObjectRelaxes(es, i, defs, depth, fuel, o);
    }
  }

  lemma WalkedReference(es: seq<Entry>, t: Value, defs: seq<Entry>, depth: nat)
    requires depth <= MAX_DEPTH && Target(es, defs) == Some(Some(t))
    ensures var resolved := Walked(t, defs, depth + 1);
            WalkedObject(es, defs, depth)
            == if resolved.Obj? then Obj(Merged(resolved.entries, es, defs, depth)) else resolved
  {
    hide Walked, Merged, Target;
  }

  lemma {:induction false} ReferenceRelaxes(es: seq<Entry>, t: Value, i: Value, defs: seq<Entry>, depth: nat,
                                            fuel: nat, o: Oracle)
    requires depth <= MAX_DEPTH && InFragment(Obj(es), defs) && DefsInFragment(defs) && WithinCap(Obj(es), defs, depth)
    requires EntriesIn(es, defs) && AllHoldIn(es, i, defs, fuel, o)
    requires Target(es, defs) == Some(Some(t)) && fuel > 0 && Accepts(t, i, defs, fuel - 1, o)
    ensures Accepts(WalkedObject(es, defs, depth), i, [], 0, Plainly(o))
    decreases Left(depth), 0, |es| + 1
  {
    hide Walked, WalkedObject, Merged, Accepts, EntriesIn, AllHoldIn;
    ResolvedIsDef(Get(es, "$ref").value.s, defs);
    WalkRelaxes(t, i, defs, depth + 1, fuel - 1, o);
    WalkedReference(es, t, defs, depth);
    var resolved := Walked(t, defs, depth + 1);
    forall k | 0 <= k < |es| ensures BesideRef(es[k].key, es[k].value) {
      assert Obj(es).entries[k] in Obj(es).entries;
    }
    hide KeywordOf, BesideRef;
    if resolved.Obj? {
      OutAcceptsIsAccepts(resolved.entries, i, o);
      MergedRelax(resolved.entries, es, i, defs, depth, fuel, o);
      OutAcceptsIsAccepts(Merged(resolved.entries, es, defs, depth), i, o);
    }
  }

  lemma StrippedAccepts(es: seq<Entry>, i: Value, o: Oracle)
    requires OutAccepts(es, i, o)
    ensures OutAccepts(Stripped(es), i, o)
  {
    hide OutAccepts;
    var r1 := Remove(es, "$schema");
    var r2 := Remove(r1, "$defs");
    var r3 := Remove(r2, "definitions");
    var r4 := Remove(r3, "$id");
    RemoveAccepts(es, "$schema", i, o);
    RemoveAccepts(r1, "$defs", i, o);
    RemoveAccepts(r2, "definitions", i, o);
    RemoveAccepts(r3, "$id", i, o);
    RemoveAccepts(r4, "$comment", i, o);
  }

  /** Sanitising a schema only relaxes it.  For every schema of the fragment that unfolds within the
      depth cap, every instance it accepts, following any number of references and under any meaning
      of the keywords the model leaves open, is accepted by the output, which is read without
      definitions. */
  lemma SanitizeRelaxes(schema: Value, i: Value, fuel: nat, o: Oracle)
    requires var defs := Definitions(schema);
             InFragment(schema, defs) && DefsInFragment(defs) && WithinCap(schema, defs, 0)
    requires Accepts(schema, i, Definitions(schema), fuel, o)
    ensures Accepts(Sanitized(schema), i, [], 0, Plainly(o))
  {
    var defs := Definitions(schema);
    WalkRelaxes(schema, i, defs, 0, fuel, o);
    var out := Walked(schema, defs, 0);
    if out.Obj? {
      OutAcceptsIsAccepts(out.entries, i, o);
      StrippedAccepts(out.entries, i, o);
      OutAcceptsIsAccepts(Stripped(out.entries), i, o);
    }
  }
}
