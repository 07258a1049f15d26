/** Schemas whose meaning the rewriting keeps exactly, and the names and limits it works with
    (crates/provider-gemini/src/schema.rs). */
module SchemaExact {
  import opened Base
  import opened Schema
  import opened SchemaMeaning
  import opened SchemaKeeps
  import SchemaClean

  // ---------------------------------------------------------------------------------------------
  // Schemas that say nothing Gemini cannot express
  // ---------------------------------------------------------------------------------------------

  /** No reference, no `oneOf`, no keyword that closes an object, one type each, null only as a value. */
  predicate Literal(v: Value)
    decreases v, 1
  {
    v.Obj? ==> forall j :: 0 <= j < |v.entries| ==> LiteralEntry(v.entries[j].key, v.entries[j].value)
  }

  predicate LiteralEntry(key: string, v: Value)
    decreases v, 2
  {
    match KeywordOf(key)
    case Type => !v.Arr?
    case Properties =>
      v.Obj? ==> forall p :: 0 <= p < |v.entries| ==>
        KeywordOf(v.entries[p].key) !in {Meta, Closed} && Literal(v.entries[p].value)
    case Items => Literal(v)
    case AnyOf => v.Arr? ==> v.items != [] && forall m :: 0 <= m < |v.items| ==> LiteralMember(v.items[m])
    case OneOf => false
    case Ref => false
    case Nullable => false
    case Closed => false
    case _ => true
  }

  /** A member of `anyOf` that is not the type null. */
  predicate LiteralMember(v: Value)
    decreases v, 2
  {
    Literal(v) && (v.Obj? ==> Entry("type", Str("null")) !in v.entries)
  }

  lemma NoTarget(v: Value, defs: seq<Entry>)
    requires Literal(v) && v.Obj?
    ensures Target(v.entries, defs).None?
  {
    KeywordTable();
    hide KeywordOf;
    forall j | 0 <= j < |v.entries| ensures v.entries[j].key != "$ref" {
      assert LiteralEntry(v.entries[j].key, v.entries[j].value);
    }
  }

  lemma MemberIsSolid(v: Value, defs: seq<Entry>, fuel: nat)
    requires LiteralMember(v)
    ensures Solid(v, defs, fuel)
  {
    if v.Obj? {
      NoTarget(v, defs);
    }
  }

  lemma MemberIsLiteral(v: Value)
    requires LiteralMember(v)
    ensures Literal(v)
  {
  }

  lemma {:induction false} NeverNullable(v: Value, defs: seq<Entry>, fuel: nat)
    requires Literal(v)
    ensures !MayHave(v, "nullable", defs, fuel)
    decreases v
  {
    if v.Obj? {
      NoTarget(v, defs);
      var es := v.entries;
      forall j | 0 <= j < |es| ensures !EntryMayHave(es[j].key, es[j].value, "nullable", defs, fuel) {
        var e := es[j];
        NullableKey(e.key);
        KeywordTable();
        hide KeywordOf, OutKey, MayHave, Solid, Literal, LiteralMember;
        assert LiteralEntry(e.key, e.value);
        if KeywordOf(e.key) == AnyOf && e.value.Arr? {
          forall m | 0 <= m < |e.value.items|
            ensures !MayHave(e.value.items[m], "nullable", defs, fuel) && Solid(e.value.items[m], defs, fuel)
          {
            assert LiteralMember(e.value.items[m]);
            MemberIsLiteral(e.value.items[m]);
            NeverNullable(e.value.items[m], defs, fuel);
            MemberIsSolid(e.value.items[m], defs, fuel);
          }
        }
      }
    }
  }

  /** On literal schemas the loose reading is the plain one. */
  lemma {:induction false} LooseIsAccepts(v: Value, i: Value, defs: seq<Entry>, fuel: nat, o: Oracle)
    requires Literal(v) && Loose(v, i, defs, fuel, o)
    ensures Accepts(v, i, defs, fuel, Plainly(o))
    decreases v, 0
  {
    if v.Obj? {
      var es := v.entries;
      NeverNullable(v, defs, fuel);
      NoTarget(v, defs);
      forall k | 0 <= k < |es| ensures Holds(es[k].key, es[k].value, i, defs, fuel, Plainly(o)) {
        assert LiteralEntry(es[k].key, es[k].value) && !Shadowed(es, es[k].key, defs, fuel);
        LooseHoldsIsHolds(es[k].key, es[k].value, i, defs, fuel, o);
      }
    }
  }

  lemma {:induction false} LooseHoldsIsHolds(key: string, v: Value, i: Value, defs: seq<Entry>, fuel: nat, o: Oracle)
    requires LiteralEntry(key, v) && LooseHolds(key, v, i, defs, fuel, o)
    ensures Holds(key, v, i, defs, fuel, Plainly(o))
    decreases v, 1
  {
    hide KeywordOf, Accepts, Loose, Solid, Literal;
    match KeywordOf(key) {
      case Properties =>
        if i.Obj? {
          forall p, q | 0 <= p < |v.entries| && 0 <= q < |i.entries| && v.entries[p].key == i.entries[q].key
            ensures Accepts(v.entries[p].value, i.entries[q].value, defs, fuel, Plainly(o))
          {
            LooseIsAccepts(v.entries[p].value, i.entries[q].value, defs, fuel, o);
          }
        }
      case Items =>
        if i.Arr? {
          forall x <- i.items ensures Accepts(v, x, defs, fuel, Plainly(o)) {
            LooseIsAccepts(v, x, defs, fuel, o);
          }
        }
      case AnyOf =>
        assert LiteralMember(v.items[0]);
        MemberIsSolid(v.items[0], defs, fuel);
        var m :| 0 <= m < |v.items| && Loose(v.items[m], i, defs, fuel, o);
        assert LiteralMember(v.items[m]);
        LooseIsAccepts(v.items[m], i, defs, fuel, o);
      case _ =>
    }
  }

  /** On literal schemas the rewriting changes nothing about what is accepted. */
  lemma SanitizeExact(schema: Value, i: Value, o: Oracle)
    requires var defs := Definitions(schema);
             InFragment(schema, defs) && DefsInFragment(defs) && WithinCap(schema, defs, 0)
                 && Apart(schema, defs, MAX_DEPTH + 1)
    requires Literal(schema)
    ensures Accepts(Sanitized(schema), i, [], 0, Plainly(o))
       <==> Accepts(schema, i, Definitions(schema), MAX_DEPTH + 1, Plainly(o))
  {
    hide InFragment, WithinCap, Apart, Literal, Accepts, Loose;
    var defs := Definitions(schema);
    assert Plainly(Plainly(o)) == Plainly(o);
    if Accepts(Sanitized(schema), i, [], 0, Plainly(o)) {
      SanitizeKeeps(schema, i, o);
      LooseIsAccepts(schema, i, defs, MAX_DEPTH + 1, o);
    }
    if Accepts(schema, i, defs, MAX_DEPTH + 1, Plainly(o)) {
      SanitizeRelaxes(schema, i, MAX_DEPTH + 1, Plainly(o));
    }
  }

  // ---------------------------------------------------------------------------------------------
  // `oneOf`
  // ---------------------------------------------------------------------------------------------

  /** A list of clean members, none of them the bare null, keeps them all under the other name. */
  lemma OneOfRenamed(ms: seq<Value>)
    requires |ms| >= 2 && forall m <- ms :: SchemaClean.Clean(m) && SchemaClean.Fits(m, 2) && !IsBareNull(m)
    ensures Sanitized(Obj([Entry("oneOf", Arr(ms))])) == Obj([Entry("anyOf", Arr(ms))])
  {
    var es, out := [Entry("oneOf", Arr(ms))], [Entry("anyOf", Arr(ms))];
    NoDefinitions(ms);
    OneEntry(es[0], "$ref");
    OneEntry(out[0], "anyOf");
    ItemsStay(ms);
    KeywordAnyOneRef();
    OneWalked(ms);
    StripsNothing(out[0]);
    hide Walked, WalkedEntries, IsBareNull, KeywordOf, Definitions, Stripped;
    assert Insert(out, "anyOf", Arr(ms)) == out;
  }

  lemma OneEntry(e: Entry, k: string)
    ensures Get([e], k) == if e.key == k then Some(e.value) else None
  {
    assert [e][1..] == [];
  }

  lemma NoDefinitions(ms: seq<Value>)
    ensures Definitions(Obj([Entry("oneOf", Arr(ms))])) == []
  {
    OneEntry(Entry("oneOf", Arr(ms)), "$defs");
    OneEntry(Entry("oneOf", Arr(ms)), "definitions");
  }

  lemma ItemsStay(ms: seq<Value>)
    requires forall m <- ms :: SchemaClean.Clean(m) && SchemaClean.Fits(m, 2)
    ensures Walked(Arr(ms), [], 1) == Arr(ms)
  {
    hide SchemaClean.Clean, SchemaClean.Fits;
    forall m | 0 <= m < |ms| ensures WalkedItems(ms, [], 2)[m] == ms[m] {
      assert ms[m] in ms;
      SchemaClean.CleanWalksToItself(ms[m], [], 2);
    }
  }

  lemma OneWalked(ms: seq<Value>)
    requires Walked(Arr(ms), [], 1) == Arr(ms) && KeywordOf("oneOf") == OneOf
    ensures WalkedEntries([Entry("oneOf", Arr(ms))], [], 0) == [Entry("anyOf", Arr(ms))]
  {
    hide Walked, KeywordOf;
    var es := [Entry("oneOf", Arr(ms))];
    assert es[..0] == [];
    assert WalkedEntries(es[..0], [], 0) == [];
  }

  lemma StripsNothing(e: Entry)
    requires e.key in {"anyOf", "items"}
    ensures Stripped([e]) == [e]
  {
    forall k | k != e.key ensures Remove([e], k) == [e] {
      OneEntry(e, k);
      SchemaClean.RemoveAbsent([e], k);
    }
    hide Remove;
  }

  /** A rewritten `oneOf` accepts exactly what some member accepts. */
  lemma OneOfExact(ms: seq<Value>, i: Value, o: Oracle)
    requires |ms| >= 2 && forall m <- ms :: SchemaClean.Clean(m) && SchemaClean.Fits(m, 2) && !IsBareNull(m)
    ensures Accepts(Sanitized(Obj([Entry("oneOf", Arr(ms))])), i, [], 0, Plainly(o))
       <==> exists m <- ms :: Accepts(m, i, [], 0, Plainly(o))
  {
    OneOfRenamed(ms);
    AnyOfMeans(ms, i, o);
    hide *;
  }

  lemma AnyOfMeans(ms: seq<Value>, i: Value, o: Oracle)
    ensures Accepts(Obj([Entry("anyOf", Arr(ms))]), i, [], 0, Plainly(o))
       <==> exists m <- ms :: Accepts(m, i, [], 0, Plainly(o))
  {
    KeywordAnyOneRef();
    var e := Entry("anyOf", Arr(ms));
    OneEntry(e, "nullable");
    OutAcceptsIsAccepts([e], i, o);
    hide KeywordOf, Accepts, Get;
    if AllHold([e], i, o) {
      assert Holds([e][0].key, [e][0].value, i, [], 0, Plainly(o));
    }
    if exists m <- ms :: Accepts(m, i, [], 0, Plainly(o)) {
      var m :| m in ms && Accepts(m, i, [], 0, Plainly(o));
      var k :| 0 <= k < |ms| && ms[k] == m;
    }
    if Holds("anyOf", Arr(ms), i, [], 0, Plainly(o)) {
      var k :| 0 <= k < |Arr(ms).items| && Accepts(Arr(ms).items[k], i, [], 0, Plainly(o));
      assert Arr(ms).items[k] in ms;
    }
  }

  // ---------------------------------------------------------------------------------------------
  // Names and limits
  // ---------------------------------------------------------------------------------------------

  /** A reference names a definition behind either prefix, and nothing else resolves. */
  lemma ReferencesResolve(name: string, r: string, defs: seq<Entry>)
    ensures Resolve("#/$defs/" + name, defs) == Resolve("#/definitions/" + name, defs) == Get(defs, name)
    ensures Resolve(r, defs).Some? <==>
              exists n :: (r == "#/$defs/" + n || r == "#/definitions/" + n) && Get(defs, n).Some?
  {
    var d, e := "#/$defs/", "#/definitions/";
    assert (d + name)[|d|..] == name && (e + name)[|e|..] == name;
    assert d[2] != e[2];
    hide Get;
    if d <= r {
      assert r == d + r[|d|..];
    } else if e <= r {
      assert r == e + r[|e|..];
    }
    if n :| (r == d + n || r == e + n) && Get(defs, n).Some? {
      assert (d + n)[|d|..] == n && (e + n)[|e|..] == n;
      assert r == d + n ==> d <= r;
      assert r == e + n ==> e <= r && r[2] == e[2];
    }
  }

  /** Does this key occur at any depth? */
  predicate Mentions(v: Value, k: string)
    decreases v
  {
    match v
    case Obj(es) => exists j :: 0 <= j < |es| && (es[j].key == k || Mentions(es[j].value, k))
    case Arr(items) => exists m :: 0 <= m < |items| && Mentions(items[m], k)
    case _ => false
  }

  lemma ForbiddenNames(k: string)
    ensures SchemaClean.Forbidden(k) <==>
              k in {"$schema", "$id", "$comment", "$defs", "definitions", "$ref", "const", "oneOf",
                    "additionalProperties", "unevaluatedProperties", "patternProperties"}
  {
  }

  /** None of these keys occurs in a clean value, at any depth; any other key may. */
  lemma {:induction false} CleanMentions(v: Value, k: string)
    requires SchemaClean.Clean(v)
    requires k in {"$schema", "$id", "$comment", "$defs", "definitions", "$ref", "const", "oneOf",
                   "additionalProperties", "unevaluatedProperties", "patternProperties"}
    ensures !Mentions(v, k)
    decreases v
  {
    ForbiddenNames(k);
    hide SchemaClean.Forbidden;
    match v {
      case Obj(es) =>
        forall j | 0 <= j < |es| ensures es[j].key != k && !Mentions(es[j].value, k) {
          assert SchemaClean.CleanEntry(es[j].key, es[j].value);
          CleanMentions(es[j].value, k);
        }
      case Arr(items) =>
        forall m | 0 <= m < |items| ensures !Mentions(items[m], k) {
          CleanMentions(items[m], k);
        }
      case _ =>
    }
  }

  /** Items of items, to a given depth. */
  function Nested(n: nat): Value {
    if n == 0 then Obj([]) else Obj([Entry("items", Nested(n - 1))])
  }

  lemma {:induction false} NestedWalks(n: nat, defs: seq<Entry>, depth: nat)
    requires depth <= MAX_DEPTH
    ensures Walked(Nested(n), defs, depth) == Nested(n) <==> depth + n <= MAX_DEPTH
    decreases n
  {
    if n > 0 {
      NestedStep(n, defs, depth);
      NestedIs(n);
      hide Walked, Nested;
      SameItems(Walked(Nested(n - 1), defs, depth + 1), Nested(n - 1));
      if depth < MAX_DEPTH {
        NestedWalks(n - 1, defs, depth + 1);
      } else {
        BeyondCap(Nested(n - 1), defs, depth + 1);
      }
    } else {
      NothingNested(defs, depth);
    }
  }

  lemma NestedIs(n: nat)
    requires n > 0
    ensures Nested(n) == Obj([Entry("items", Nested(n - 1))]) && Nested(n - 1) != Null
  {
  }

  lemma SameItems(a: Value, b: Value)
    ensures Obj([Entry("items", a)]) == Obj([Entry("items", b)]) <==> a == b
  {
    var x, y := [Entry("items", a)], [Entry("items", b)];
    assert x == y ==> x[0] == y[0];
  }

  lemma BeyondCap(v: Value, defs: seq<Entry>, depth: nat)
    requires depth > MAX_DEPTH
    ensures Walked(v, defs, depth) == Null
  {
  }

  lemma NothingNested(defs: seq<Entry>, depth: nat)
    requires depth <= MAX_DEPTH
    ensures Walked(Nested(0), defs, depth) == Nested(0)
  {
    assert WalkedEntries([], defs, depth) == [];
  }

  lemma NestedStep(n: nat, defs: seq<Entry>, depth: nat)
    requires depth <= MAX_DEPTH && n > 0
    ensures Walked(Nested(n), defs, depth) == Obj([Entry("items", Walked(Nested(n - 1), defs, depth + 1))])
  {
    var e := Entry("items", Nested(n - 1));
    var w := Entry("items", Walked(e.value, defs, depth + 1));
    OneEntry(e, "$ref");
    OneEntry(w, "anyOf");
    KeptAsItIs(e, defs, depth);
    assert KeywordOf("items") == Items;
    hide KeywordOf, Nested;
    assert [e][..0] == [];
    assert WalkedEntries([e][..0], defs, depth) == [];
    assert WalkedEntries([e], defs, depth) == [w];
  }

  /** The 32nd level is the last that is kept. */
  lemma CapExact(n: nat)
    ensures Sanitized(Nested(n)) == Nested(n) <==> n <= 32
  {
    NoNestedDefinitions(n);
    NestedWalks(n, [], 0);
    if n > 0 {
      NestedStep(n, [], 0);
      StripsNothing(Entry("items", Walked(Nested(n - 1), [], 1)));
      hide Walked, Nested, Stripped, Definitions;
    }
  }

  lemma NoNestedDefinitions(n: nat)
    ensures Definitions(Nested(n)) == []
  {
    if n > 0 {
      OneEntry(Nested(n).entries[0], "$defs");
      OneEntry(Nested(n).entries[0], "definitions");
    }
  }
}
