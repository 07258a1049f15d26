/** What the rewriting keeps: whatever the output accepts, the input accepts too when it is read as Gemini can read it
    (crates/provider-gemini/src/schema.rs). */
module SchemaKeeps {
  import opened Base
  import opened Schema
  import opened SchemaMeaning
  import SchemaClean

  // ---------------------------------------------------------------------------------------------
  // The loose reading
  // ---------------------------------------------------------------------------------------------

  /** What Gemini can express of a schema: `oneOf` is read as `anyOf`, keywords that close an object say nothing, a
      keyword beside a reference counts where the target does not have it, and null passes where the schema mentions
      it.  `fuel` bounds the number of references followed. */
  predicate Loose(s: Value, i: Value, defs: seq<Entry>, fuel: nat, o: Oracle)
    decreases fuel, s, 1
  {
    match s
    case Bool(b) => b
    case Obj(es) =>
      || (i.Null? && MayHave(s, "nullable", defs, fuel))
      || forall k :: 0 <= k < |es| ==>
           Shadowed(es, es[k].key, defs, fuel) || LooseHolds(es[k].key, es[k].value, i, defs, fuel, o)
    case _ => false
  }

  predicate LooseHolds(key: string, v: Value, i: Value, defs: seq<Entry>, fuel: nat, o: Oracle)
    decreases fuel, v, 2
  {
    match KeywordOf(key)
    case Type => TypeHolds(v, i) || (v.Arr? && forall t <- v.items :: t == Str("null"))
    case Enum => v.Arr? && i in v.items
    case Const => i == v
    case Properties =>
      v.Obj? && (i.Obj? ==>
        forall p, q :: 0 <= p < |v.entries| && 0 <= q < |i.entries| && v.entries[p].key == i.entries[q].key ==>
          KeywordOf(v.entries[p].key) in {Meta, Closed} || Loose(v.entries[p].value, i.entries[q].value, defs, fuel, o))
    case Required => v.Arr? && (i.Obj? ==> forall r <- v.items :: r.Str? && Has(i.entries, r.s))
    case Items => i.Arr? ==> forall x <- i.items :: Loose(v, x, defs, fuel, o)
    case AnyOf => LooseAny(v, i, defs, fuel, o)
    case OneOf => LooseAny(v, i, defs, fuel, o)
    case Ref =>
      v.Str? && (match Resolve(v.s, defs)
                 case Some(t) => fuel > 0 && Loose(t, i, defs, fuel - 1, o)
                 case None => true)
    case Plain => o.local(key, v, i)
    case _ => true
  }

  /** A list of members that mention nothing but null says nothing. */
  predicate LooseAny(v: Value, i: Value, defs: seq<Entry>, fuel: nat, o: Oracle)
    decreases fuel, v, 1
  {
    && v.Arr?
    && ((exists m :: 0 <= m < |v.items| && Loose(v.items[m], i, defs, fuel, o))
        || forall m :: 0 <= m < |v.items| ==> !Solid(v.items[m], defs, fuel))
  }

  /** A keyword beside a reference that the target may have. */
  predicate Shadowed(es: seq<Entry>, key: string, defs: seq<Entry>, fuel: nat)
    decreases fuel, es
  {
    match Target(es, defs)
    case Some(Some(t)) => key != "$ref" && fuel > 0 && MayHave(t, key, defs, fuel - 1)
    case _ => false
  }

  /** The key a keyword is rewritten to. */
  function OutKey(key: string): string {
    match KeywordOf(key)
    case Const => "enum"
    case OneOf => "anyOf"
    case _ => key
  }

  /** A schema that is not just the type null. */
  predicate Solid(v: Value, defs: seq<Entry>, fuel: nat)
    decreases fuel, v, 0
  {
    v.Obj? ==>
      && Entry("type", Str("null")) !in v.entries
      && match Target(v.entries, defs)
         case Some(Some(t)) => fuel > 0 && Solid(t, defs, fuel - 1)
         case _ => true
  }

  /** May the rewritten schema have this key? */
  predicate MayHave(v: Value, k: string, defs: seq<Entry>, fuel: nat)
    decreases fuel, v, 0
  {
    v.Obj? &&
    match Target(v.entries, defs)
    case Some(Some(t)) => Has(v.entries, k) || (fuel > 0 && MayHave(t, k, defs, fuel - 1))
    case _ => exists j :: 0 <= j < |v.entries| && EntryMayHave(v.entries[j].key, v.entries[j].value, k, defs, fuel)
  }

  predicate EntryMayHave(key: string, v: Value, k: string, defs: seq<Entry>, fuel: nat)
    decreases fuel, v, 1
  {
    || OutKey(key) == k
    || (k == "nullable" && KeywordOf(key) == Type && v.Arr? && Str("null") in v.items)
    || (KeywordOf(key) in {AnyOf, OneOf} && v.Arr?
        && exists m :: 0 <= m < |v.items|
                       && (MayHave(v.items[m], k, defs, fuel) || (k == "nullable" && !Solid(v.items[m], defs, fuel))))
  }

  // ---------------------------------------------------------------------------------------------
  // Schemas whose keywords do not get in each other's way
  // ---------------------------------------------------------------------------------------------

  predicate OutDistinct(es: seq<Entry>) {
    forall j, k :: 0 <= j < k < |es| ==> OutKey(es[j].key) != OutKey(es[k].key)
  }

  /** Keys are distinct and stay so when they are renamed. */
  predicate Clear(es: seq<Entry>) {
    && OutDistinct(es)
    && (Has(es, "nullable") ==> forall e <- es :: e.key == "type" ==> !e.value.Arr?)
  }

  predicate Apart(v: Value, defs: seq<Entry>, fuel: nat)
    decreases fuel, v, 3
  {
    v.Obj? ==>
      var es := v.entries;
      && Clear(es)
      && (forall j :: 0 <= j < |es| ==> EntryApart(es[j].key, es[j].value, defs, fuel))
      && match Target(es, defs)
         case Some(Some(t)) => fuel > 0 && t.Obj? && Apart(t, defs, fuel - 1)
         case _ =>
           forall j, k :: 0 <= j < |es| && 0 <= k < |es| && j != k && KeywordOf(es[j].key) in {AnyOf, OneOf} ==>
             MayStandBeside(es[k].key, es[j].value, defs, fuel)
  }

  predicate EntryApart(key: string, v: Value, defs: seq<Entry>, fuel: nat)
    decreases fuel, v, 4
  {
    match KeywordOf(key)
    case Type => v.Arr? ==> forall t <- v.items :: t.Str?
    case Properties =>
      v.Obj? ==> Clear(v.entries) && forall p :: 0 <= p < |v.entries| ==> Apart(v.entries[p].value, defs, fuel)
    case Items => Apart(v, defs, fuel)
    case AnyOf => MembersApart(v, defs, fuel)
    case OneOf => MembersApart(v, defs, fuel)
    case _ => true
  }

  predicate MembersApart(v: Value, defs: seq<Entry>, fuel: nat)
    decreases fuel, v, 3
  {
    v.Arr? ==> forall m :: 0 <= m < |v.items| ==>
      (v.items[m].Obj? || v.items[m] == Bool(true)) && Apart(v.items[m], defs, fuel)
  }

  /** A member that may be left alone is merged into the object it stands in;
      then it shares no key with it but notes. */
  predicate MayStandBeside(key: string, v: Value, defs: seq<Entry>, fuel: nat) {
    v.Arr? ==>
      || KeywordOf(key) in {Meta, Closed, Note}
      || (exists m, n :: 0 <= m < n < |v.items| && Solid(v.items[m], defs, fuel) && Solid(v.items[n], defs, fuel))
      || forall m :: 0 <= m < |v.items| ==> !MayHave(v.items[m], OutKey(key), defs, fuel)
  }

  // ---------------------------------------------------------------------------------------------
  // The loose reading is looser
  // ---------------------------------------------------------------------------------------------

  /** What a schema accepts it accepts in the loose reading. */
  lemma {:induction false} AcceptsIsLoose(s: Value, i: Value, defs: seq<Entry>, fuel: nat, o: Oracle)
    requires Accepts(s, i, defs, fuel, o)
    ensures Loose(s, i, defs, fuel, o)
    decreases fuel, s, 0
  {
    if s.Obj? {
      var es := s.entries;
      if TakesNull(es, i) {
        var j :| 0 <= j < |es| && es[j] == Entry("nullable", Bool(true));
        NullableStays();
        assert Has(es, "nullable") && EntryMayHave(es[j].key, es[j].value, "nullable", defs, fuel);
      } else {
        forall k | 0 <= k < |es| ensures LooseHolds(es[k].key, es[k].value, i, defs, fuel, o) {
          HoldsIsLoose(es[k].key, es[k].value, i, defs, fuel, o);
        }
      }
    }
  }

  lemma NullableStays()
    ensures OutKey("nullable") == "nullable"
  {
  }

  lemma {:induction false} HoldsIsLoose(key: string, v: Value, i: Value, defs: seq<Entry>, fuel: nat, o: Oracle)
    requires Holds(key, v, i, defs, fuel, o)
    ensures LooseHolds(key, v, i, defs, fuel, o)
    decreases fuel, v, 1
  {
    hide KeywordOf, Accepts, Loose, Solid;
    match KeywordOf(key) {
      case Properties =>
        if i.Obj? {
          forall p, q | 0 <= p < |v.entries| && 0 <= q < |i.entries| && v.entries[p].key == i.entries[q].key
            ensures Loose(v.entries[p].value, i.entries[q].value, defs, fuel, o)
          {
            AcceptsIsLoose(v.entries[p].value, i.entries[q].value, defs, fuel, o);
          }
        }
      case Items =>
        if i.Arr? {
          forall x <- i.items ensures Loose(v, x, defs, fuel, o) {
            AcceptsIsLoose(v, x, defs, fuel, o);
          }
        }
      case AnyOf =>
        var m :| 0 <= m < |v.items| && Accepts(v.items[m], i, defs, fuel, o);
        AcceptsIsLoose(v.items[m], i, defs, fuel, o);
      case OneOf =>
        var m :| 0 <= m < |v.items| && Accepts(v.items[m], i, defs, fuel, o);
        AcceptsIsLoose(v.items[m], i, defs, fuel, o);
      case Ref =>
        if Resolve(v.s, defs).Some? {
          AcceptsIsLoose(Resolve(v.s, defs).value, i, defs, fuel - 1, o);
        }
      case _ =>
    }
  }

  // ---------------------------------------------------------------------------------------------
  // Keys of the output
  // ---------------------------------------------------------------------------------------------

  lemma InsertKeys(es: seq<Entry>, k: string, v: Value, k': string)
    ensures Get(Insert(es, k, v), k') == if k == k' then Some(v) else Get(es, k')
  {
    if k != k' {
      GetInsertOther(es, k, v, k');
    }
  }

  lemma RetypedKeys(value: Value, es: seq<Entry>, k: string)
    ensures k !in {"type", "nullable"} ==> Get(Retyped(value, es), k) == Get(es, k)
    ensures k == "nullable" && !(value.Arr? && Str("null") in value.items) ==> Get(Retyped(value, es), k) == Get(es, k)
    ensures Get(Retyped(value, es), "type")
         == if !value.Arr? then Some(value)
            else if FirstNonNull(value.items).Some? then FirstNonNull(value.items) else Get(es, "type")
  {
    hide Get, Insert;
    InsertKeys(es, "type", value, k);
    InsertKeys(es, "type", value, "type");
    if value.Arr? {
      var chosen := FirstNonNull(value.items);
      var out1 := if chosen.Some? then Insert(es, "type", chosen.value) else es;
      if chosen.Some? {
        InsertKeys(es, "type", chosen.value, k);
        InsertKeys(es, "type", chosen.value, "type");
      }
      InsertKeys(out1, "nullable", Bool(true), k);
      InsertKeys(out1, "nullable", Bool(true), "type");
    }
  }

  /** What one keyword becomes under its own key, if anything. */
  function Contributed(e: Entry, defs: seq<Entry>, depth: nat): Option<Value>
    requires depth <= MAX_DEPTH
  {
    match KeywordOf(e.key)
    case Meta => None
    case Closed => None
    case Type => if e.value.Arr? then FirstNonNull(e.value.items) else Some(e.value)
    case Const => Some(Arr([e.value]))
    case _ => Some(Walked(e.value, defs, depth + 1))
  }

  /** One more keyword: what it becomes, and that other keys stay as they are. */
  lemma EntryKeys(acc: seq<Entry>, e: Entry, defs: seq<Entry>, depth: nat, k: string)
    requires depth <= MAX_DEPTH
    ensures var r := WalkedEntry(acc, e, defs, depth);
            && (k != OutKey(e.key) && !(k == "nullable" && e.key == "type" && e.value.Arr?)
                ==> Get(r, k) == Get(acc, k))
            && (Contributed(e, defs, depth).Some? ==> Get(r, OutKey(e.key)) == Contributed(e, defs, depth))
            && (KeywordOf(e.key) in {Meta, Closed} ==> r == acc)
  {
    KeywordTable();
    hide KeywordOf, Get, Insert, Walked, Retyped;
    var kw := KeywordOf(e.key);
    if kw == Type {
      RetypedKeys(e.value, acc, k);
    } else if kw == Const {
      InsertKeys(acc, "enum", Arr([e.value]), k);
      InsertKeys(acc, "enum", Arr([e.value]), "enum");
    } else if kw !in {Meta, Closed} {
      InsertKeys(acc, OutKey(e.key), Walked(e.value, defs, depth + 1), k);
      InsertKeys(acc, OutKey(e.key), Walked(e.value, defs, depth + 1), OutKey(e.key));
    }
  }

  /** Every keyword of a clear object that is not dropped is there in the end. */
  lemma {:induction false} EntrySurvives(es: seq<Entry>, defs: seq<Entry>, depth: nat, j: nat)
    requires depth <= MAX_DEPTH && Clear(es) && j < |es| && Contributed(es[j], defs, depth).Some?
    ensures Get(WalkedEntries(es, defs, depth), OutKey(es[j].key)) == Contributed(es[j], defs, depth)
    decreases |es|
  {
    hide OutKey, Contributed, WalkedEntry, Get;
    var n := |es| - 1;
    EntryKeys(WalkedEntries(es[..n], defs, depth), es[n], defs, depth, OutKey(es[j].key));
    if j < n {
      ClearInit(es);
      EntrySurvives(es[..n], defs, depth, j);
      if OutKey(es[j].key) == "nullable" {
        NullableKey(es[j].key);
        assert es[n] in es;
      }
    }
  }

  lemma NullableKey(key: string)
    ensures OutKey(key) == "nullable" <==> key == "nullable"
  {
    KeywordTable();
    hide KeywordOf;
  }

  lemma ClearInit(es: seq<Entry>)
    requires Clear(es) && es != []
    ensures Clear(es[..|es| - 1])
  {
    hide OutKey;
    var init := es[..|es| - 1];
    if Has(init, "nullable") {
      var j :| 0 <= j < |init| && init[j].key == "nullable";
      assert es[j].key == "nullable";
    }
  }

  /** And nothing else is there, `nullable` aside. */
  lemma {:induction false} KeyComesFrom(es: seq<Entry>, defs: seq<Entry>, depth: nat, k: string)
    requires depth <= MAX_DEPTH && Get(WalkedEntries(es, defs, depth), k).Some?
    ensures exists j :: 0 <= j < |es|
              && ((OutKey(es[j].key) == k && KeywordOf(es[j].key) !in {Meta, Closed})
                  || (k == "nullable" && es[j].key == "type" && es[j].value.Arr? && Str("null") in es[j].value.items))
    decreases |es|
  {
    hide WalkedEntry, OutKey, Get, KeywordOf;
    if es == [] {
      NoKeys(k, defs, depth);
    } else {
      var n := |es| - 1;
      var acc := WalkedEntries(es[..n], defs, depth);
      if Get(acc, k).Some? {
        KeyComesFrom(es[..n], defs, depth, k);
        var j :| 0 <= j < n
          && ((OutKey(es[..n][j].key) == k && KeywordOf(es[..n][j].key) !in {Meta, Closed})
              || (k == "nullable" && es[..n][j].key == "type" && es[..n][j].value.Arr?
                  && Str("null") in es[..n][j].value.items));
        assert es[..n][j] == es[j];
      } else {
        NewKey(acc, es[n], defs, depth, k);
      }
    }
  }

  lemma NoKeys(k: string, defs: seq<Entry>, depth: nat)
    requires depth <= MAX_DEPTH
    ensures Get(WalkedEntries([], defs, depth), k).None?
  {
  }

  lemma NewKey(acc: seq<Entry>, e: Entry, defs: seq<Entry>, depth: nat, k: string)
    requires depth <= MAX_DEPTH && Get(acc, k).None? && Get(WalkedEntry(acc, e, defs, depth), k).Some?
    ensures (OutKey(e.key) == k && KeywordOf(e.key) !in {Meta, Closed})
            || (k == "nullable" && e.key == "type" && e.value.Arr? && Str("null") in e.value.items)
  {
    EntryKeys(acc, e, defs, depth, k);
    RetypedKeys(e.value, acc, k);
    KeywordTable();
    hide KeywordOf, Get, Insert, Walked, Retyped;
  }

  /** The members under `anyOf`. */
  predicate HasList(es: seq<Entry>) {
    Get(es, "anyOf").Some? && Get(es, "anyOf").value.Arr?
  }

  function ListOf(es: seq<Entry>): seq<Value>
    requires HasList(es)
  {
    Get(es, "anyOf").value.items
  }

  /** Taking null out of `anyOf` leaves the other keys, and adds those of a member that is left alone. */
  lemma LiftedKeys(es: seq<Entry>, k: string)
    ensures k !in {"anyOf", "nullable"} && Get(es, k).Some? ==> Get(Lifted(es), k) == Get(es, k)
    ensures !HasList(es) ==> Lifted(es) == es
    ensures HasList(es) ==>
              var kept := Retained(ListOf(es));
              && (|kept| > 1 ==> Get(Lifted(es), "anyOf") == Some(Arr(kept)))
              && (|kept| == 1 && kept[0].Obj? && k != "nullable" && (k == "anyOf" || Get(es, k).None?) ==>
                    Get(Lifted(es), k) == Get(kept[0].entries, k))
  {
    if HasList(es) {
      var arr := ListOf(es);
      var kept := Retained(arr);
      LiftedIs(es, arr);
      hide Lifted, Get, Insert, Remove, OrInsertAll, Retained, Shrunk;
      var shrunk := Shrunk(es, kept, |kept| != |arr|);
      ShrunkKeys(es, kept, |kept| != |arr|, k);
      ShrunkKeys(es, kept, |kept| != |arr|, "anyOf");
      RemovedKeys(shrunk, "anyOf", k);
      if |kept| == 1 && kept[0].Obj? {
        OrInsertAllKeeps(Remove(shrunk, "anyOf"), kept[0].entries, k);
        OrInsertAllAdds(Remove(shrunk, "anyOf"), kept[0].entries, k);
      }
    }
  }

  lemma ShrunkKeys(es: seq<Entry>, kept: seq<Value>, lost: bool, k: string)
    ensures Get(Shrunk(es, kept, lost), "anyOf") == Some(Arr(kept))
    ensures k !in {"anyOf", "nullable"} ==> Get(Shrunk(es, kept, lost), k) == Get(es, k)
    ensures Get(Shrunk(es, kept, lost), "nullable").Some? ==> Get(es, "nullable").Some? || lost
  {
    hide Get, Insert;
    var out1 := Insert(es, "anyOf", Arr(kept));
    InsertKeys(es, "anyOf", Arr(kept), k);
    InsertKeys(es, "anyOf", Arr(kept), "nullable");
    InsertKeys(es, "anyOf", Arr(kept), "anyOf");
    GetAppend(out1, Entry("nullable", Bool(true)), k);
    GetAppend(out1, Entry("nullable", Bool(true)), "anyOf");
  }

  lemma RemovedKeys(es: seq<Entry>, k: string, k': string)
    ensures Get(Remove(es, k), k') == if k == k' then None else Get(es, k')
  {
    if k != k' {
      GetRemoveOther(es, k, k');
    }
  }

  /** A key of the lifted object is one it had, `nullable` for a member taken out, or one of a member. */
  lemma LiftedComesFrom(es: seq<Entry>, k: string)
    requires Get(Lifted(es), k).Some?
    ensures || Get(es, k).Some?
            || (HasList(es) && k == "nullable" && exists m <- ListOf(es) :: IsBareNull(m))
            || (HasList(es) && exists m <- ListOf(es) :: m.Obj? && Get(m.entries, k).Some?)
  {
    if HasList(es) {
      var arr := ListOf(es);
      var kept := Retained(arr);
      LiftedIs(es, arr);
      hide Lifted, Get, Insert, Remove, OrInsertAll, Shrunk, IsBareNull;
      var shrunk := Shrunk(es, kept, |kept| != |arr|);
      ShrunkKeys(es, kept, |kept| != |arr|, k);
      RemovedKeys(shrunk, "anyOf", k);
      if |kept| == 1 && kept[0].Obj? {
        OrInsertAllAdds(Remove(shrunk, "anyOf"), kept[0].entries, k);
        assert kept[0] in kept;
      }
    }
  }

  // ---------------------------------------------------------------------------------------------
  // References
  // ---------------------------------------------------------------------------------------------

  /** The entries that are rewritten when no reference resolves. */
  function Body(es: seq<Entry>, defs: seq<Entry>): seq<Entry> {
    if Target(es, defs).Some? then Remove(es, "$ref") else es
  }

  lemma WalkedPlain(es: seq<Entry>, defs: seq<Entry>, depth: nat)
    requires depth <= MAX_DEPTH && (Target(es, defs).None? || Target(es, defs).value.None?)
    ensures Walked(Obj(es), defs, depth) == Obj(Lifted(WalkedEntries(Body(es, defs), defs, depth)))
  {
    hide Lifted, WalkedEntries, Get;
    if Target(es, defs).Some? {
      NoRefLeft(es);
      assert WalkedObject(Remove(es, "$ref"), defs, depth)
             == Obj(Lifted(WalkedEntries(Remove(es, "$ref"), defs, depth)));
    }
  }

  lemma NoRefLeft(es: seq<Entry>)
    ensures Get(Remove(es, "$ref"), "$ref").None?
  {
    RemovedKeys(es, "$ref", "$ref");
  }

  lemma BodyEntries(es: seq<Entry>, defs: seq<Entry>)
    ensures forall e <- Body(es, defs) :: e in es
    ensures forall e <- es :: e.key != "$ref" ==> e in Body(es, defs)
  {
    forall e <- Body(es, defs) ensures e in es {
      var r := Body(es, defs);
      var j :| 0 <= j < |r| && r[j] == e;
    }
    forall e <- es | e.key != "$ref" ensures e in Body(es, defs) {
      var j :| 0 <= j < |es| && es[j] == e;
    }
  }

  lemma TargetIsSchema(es: seq<Entry>, defs: seq<Entry>, t: Value)
    requires DefsInFragment(defs) && Target(es, defs) == Some(Some(t))
    ensures IsSchema(t) && InFragment(t, defs)
  {
    hide InFragment;
    ResolvedIsDef(Get(es, "$ref").value.s, defs);
  }

  lemma {:induction false} OnlyStringsWalkToStrings(v: Value, defs: seq<Entry>, depth: nat)
    requires DefsInFragment(defs)
    ensures Walked(v, defs, depth).Str? ==> Walked(v, defs, depth) == v
    decreases Left(depth)
  {
    hide InFragment, Lifted;
    if v.Obj? && depth <= MAX_DEPTH {
      match Target(v.entries, defs) {
        case Some(Some(t)) =>
          TargetIsSchema(v.entries, defs, t);
          OnlyStringsWalkToStrings(t, defs, depth + 1);
        case _ => WalkedPlain(v.entries, defs, depth);
      }
    }
  }

  /** A solid schema does not turn into the bare type null. */
  lemma {:induction false} SolidStays(v: Value, defs: seq<Entry>, depth: nat, fuel: nat)
    requires DefsInFragment(defs) && Solid(v, defs, fuel)
    ensures !IsBareNull(Walked(v, defs, depth))
    decreases Left(depth)
  {
    hide InFragment, Lifted, WalkedEntries, IsBareNull;
    if v.Obj? && depth <= MAX_DEPTH {
      var es := v.entries;
      match Target(es, defs) {
        case Some(Some(t)) =>
          SolidStays(t, defs, depth + 1, fuel - 1);
          WalkedReference(es, t, defs, depth);
          var resolved := Walked(t, defs, depth + 1);
          if resolved.Obj? {
            SolidMerged(resolved.entries, es, defs, depth);
          }
        case _ =>
          WalkedPlain(es, defs, depth);
          BodyEntries(es, defs);
          SolidPlain(Body(es, defs), defs, depth);
      }
    } else {
      assert !Walked(v, defs, depth).Obj?;
      NotBare(Walked(v, defs, depth));
    }
  }

  lemma NotBare(v: Value)
    ensures !v.Obj? ==> !IsBareNull(v)
  {
  }

  lemma SolidPlain(es: seq<Entry>, defs: seq<Entry>, depth: nat)
    requires depth <= MAX_DEPTH && Entry("type", Str("null")) !in es
    ensures !IsBareNull(Obj(Lifted(WalkedEntries(es, defs, depth))))
  {
    hide WalkedEntries;
    var out := WalkedEntries(es, defs, depth);
    TypeIsNotNull(es, defs, depth);
    if Get(out, "type").Some? {
      LiftedKeys(out, "type");
    } else if HasList(out) {
      SolidMember(out);
    }
  }

  lemma SolidMember(out: seq<Entry>)
    requires HasList(out) && Get(out, "type").None?
    ensures !IsBareNull(Obj(Lifted(out)))
  {
    var kept := Retained(ListOf(out));
    hide Lifted, Get, Retained;
    if |kept| == 1 && kept[0].Obj? {
      LiftedKeys(out, "type");
      assert kept[0] in kept;
      var member := kept[0].entries;
      if Get(member, "type") == Some(Str("null")) {
        var e :| e in member && e.key != "type";
        var j :| 0 <= j < |member| && member[j] == e;
        OtherKeyStays(out, member, e.key);
        var v := Get(Lifted(out), e.key).value;
        GetIsIn(Lifted(out), e.key);
      }
    } else {
      NothingMerged(out, "type");
    }
  }

  lemma GetIsIn(es: seq<Entry>, k: string)
    ensures Get(es, k).Some? ==> Entry(k, Get(es, k).value) in es
  {
    if Get(es, k).Some? {
      var j :| 0 <= j < |es| && es[j] == Entry(k, Get(es, k).value);
    }
  }

  /** A key of the member that is merged is there in the end. */
  lemma OtherKeyStays(out: seq<Entry>, member: seq<Entry>, k: string)
    requires HasList(out) && Retained(ListOf(out)) == [Obj(member)] && Has(member, k)
    ensures Get(Lifted(out), k).Some?
  {
    var arr := ListOf(out);
    var kept := Retained(arr);
    LiftedIs(out, arr);
    hide Lifted, Insert, Remove, OrInsertAll, Shrunk, Retained;
    var rest := Remove(Shrunk(out, kept, |kept| != |arr|), "anyOf");
    OrInsertAllKeeps(rest, member, k);
    OrInsertAllAdds(rest, member, k);
  }

  lemma NothingMerged(out: seq<Entry>, k: string)
    requires HasList(out) && k !in {"anyOf", "nullable"}
    requires var kept := Retained(ListOf(out)); |kept| != 1 || !kept[0].Obj?
    ensures Get(Lifted(out), k) == Get(out, k)
  {
    var arr := ListOf(out);
    var kept := Retained(arr);
    LiftedIs(out, arr);
    hide Lifted, Get, Insert, Remove, OrInsertAll, Shrunk, Retained;
    ShrunkKeys(out, kept, |kept| != |arr|, k);
    RemovedKeys(Shrunk(out, kept, |kept| != |arr|), "anyOf", k);
  }

  lemma {:induction false} TypeIsNotNull(es: seq<Entry>, defs: seq<Entry>, depth: nat)
    requires depth <= MAX_DEPTH && Entry("type", Str("null")) !in es
    ensures Get(WalkedEntries(es, defs, depth), "type") != Some(Str("null"))
    decreases |es|
  {
    hide WalkedEntry, Get;
    if es == [] {
      NoKeys("type", defs, depth);
    } else {
      var n := |es| - 1;
      assert forall e <- es[..n] :: e in es;
      TypeIsNotNull(es[..n], defs, depth);
      var acc := WalkedEntries(es[..n], defs, depth);
      EntryKeys(acc, es[n], defs, depth, "type");
      assert es[n] in es;
      TypeEntry(acc, es[n], defs, depth);
    }
  }

  lemma TypeEntry(acc: seq<Entry>, e: Entry, defs: seq<Entry>, depth: nat)
    requires depth <= MAX_DEPTH && e != Entry("type", Str("null")) && Get(acc, "type") != Some(Str("null"))
    ensures OutKey(e.key) == "type" ==> Get(WalkedEntry(acc, e, defs, depth), "type") != Some(Str("null"))
  {
    KeywordTable();
    RetypedKeys(e.value, acc, "type");
    if e.value.Arr? {
      FirstNonNullIn(e.value.items);
    }
    hide KeywordOf, Get, Insert, Walked, Retyped;
  }

  lemma SolidMerged(resolved: seq<Entry>, es: seq<Entry>, defs: seq<Entry>, depth: nat)
    requires depth <= MAX_DEPTH && DefsInFragment(defs) && !IsBareNull(Obj(resolved))
             && Entry("type", Str("null")) !in es
    ensures !IsBareNull(Obj(Merged(resolved, es, defs, depth)))
  {
    hide Get, Walked, InFragment;
    var out := Merged(resolved, es, defs, depth);
    MergedKeys(resolved, es, defs, depth, "type");
    if Get(out, "type") == Some(Str("null")) {
      if Get(resolved, "type").Some? {
        var e :| e in resolved && e.key != "type";
        MergedKeys(resolved, es, defs, depth, e.key);
      } else {
        var j :| 0 <= j < |es| && es[j].key == "type" && Get(out, "type") == Some(Walked(es[j].value, defs, depth + 1));
        OnlyStringsWalkToStrings(es[j].value, defs, depth + 1);
      }
    }
  }

  /** What is merged into a resolved reference: the target keeps its keys, the siblings add theirs. */
  lemma {:induction false} MergedKeys(resolved: seq<Entry>, es: seq<Entry>, defs: seq<Entry>, depth: nat, k: string)
    requires depth <= MAX_DEPTH
    ensures var out := Merged(resolved, es, defs, depth);
            && (Get(resolved, k).Some? ==> Get(out, k) == Get(resolved, k))
            && (Get(resolved, k).None? && Get(out, k).Some? ==>
                  exists j :: 0 <= j < |es| && es[j].key == k != "$ref"
                      && Get(out, k) == Some(Walked(es[j].value, defs, depth + 1)))
            && (Get(resolved, k).None? && Get(out, k).None? ==> k == "$ref" || forall e <- es :: e.key != k)
            && (forall e <- resolved :: e in out)
    decreases |es|
  {
    hide Get, Walked;
    if es != [] {
      var n := |es| - 1;
      MergedKeys(resolved, es[..n], defs, depth, k);
      var acc := Merged(resolved, es[..n], defs, depth);
      GetAppend(acc, Entry(es[n].key, Walked(es[n].value, defs, depth + 1)), k);
      if Get(resolved, k).None? && Get(acc, k).Some? {
        var j :| 0 <= j < n && es[..n][j].key == k != "$ref"
            && Get(acc, k) == Some(Walked(es[..n][j].value, defs, depth + 1));
        assert es[j] == es[..n][j];
      }
      assert es == es[..n] + [es[n]];
    }
  }

  // ---------------------------------------------------------------------------------------------
  // Keys are known and distinct
  // ---------------------------------------------------------------------------------------------

  lemma WalkedMember(items: seq<Value>, defs: seq<Entry>, depth: nat, m: Value)
    requires depth <= MAX_DEPTH && Walked(Arr(items), defs, depth) == Arr(WalkedItems(items, defs, depth + 1))
    requires m in WalkedItems(items, defs, depth + 1)
    ensures exists j :: 0 <= j < |items| && m == Walked(items[j], defs, depth + 1)
  {
    var r := WalkedItems(items, defs, depth + 1);
    var j :| 0 <= j < |r| && r[j] == m;
    assert r[j] == Walked(items[j], defs, depth + 1);
  }

  /** The list under `anyOf` is the one keyword that becomes it, walked. */
  lemma {:induction false} ListComesFrom(es: seq<Entry>, defs: seq<Entry>, depth: nat)
    requires depth <= MAX_DEPTH && HasList(WalkedEntries(es, defs, depth))
    ensures exists j :: 0 <= j < |es| && KeywordOf(es[j].key) in {AnyOf, OneOf}
              && Get(WalkedEntries(es, defs, depth), "anyOf") == Some(Walked(es[j].value, defs, depth + 1))
    decreases |es|
  {
    hide WalkedEntry, OutKey, Get, KeywordOf, Walked, Contributed;
    if es == [] {
      NoKeys("anyOf", defs, depth);
    } else {
      var n := |es| - 1;
      var acc := WalkedEntries(es[..n], defs, depth);
      EntryKeys(acc, es[n], defs, depth, "anyOf");
      AnyOfKey(es[n], defs, depth);
      if OutKey(es[n].key) != "anyOf" {
        ListComesFrom(es[..n], defs, depth);
        var j :| 0 <= j < n && KeywordOf(es[..n][j].key) in {AnyOf, OneOf}
          && Get(acc, "anyOf") == Some(Walked(es[..n][j].value, defs, depth + 1));
        assert es[..n][j] == es[j];
      }
    }
  }

  lemma AnyOfKey(e: Entry, defs: seq<Entry>, depth: nat)
    requires depth <= MAX_DEPTH
    ensures OutKey(e.key) == "anyOf" <==> KeywordOf(e.key) in {AnyOf, OneOf}
    ensures OutKey(e.key) == "anyOf" ==> Contributed(e, defs, depth) == Some(Walked(e.value, defs, depth + 1))
  {
    KeywordTable();
    hide KeywordOf, Walked;
  }

  /** Whatever key the output has, the input may have. */
  lemma {:induction false} KeysKnown(v: Value, k: string, defs: seq<Entry>, depth: nat, fuel: nat)
    requires DefsInFragment(defs) && v.Obj? && fuel >= Left(depth)
    requires Walked(v, defs, depth).Obj? && Get(Walked(v, defs, depth).entries, k).Some?
    ensures MayHave(v, k, defs, fuel)
    decreases Left(depth), 2
  {
    hide InFragment, Lifted, WalkedEntries, Get, EntryMayHave;
    var es := v.entries;
    match Target(es, defs) {
      case Some(Some(t)) =>
        WalkedReference(es, t, defs, depth);
        var resolved := Walked(t, defs, depth + 1);
        TargetIsSchema(es, defs, t);
        BoolsWalk(t, defs, depth + 1);
        if resolved.Obj? {
          MergedKeys(resolved.entries, es, defs, depth, k);
          if Get(resolved.entries, k).Some? {
            KeysKnown(t, k, defs, depth + 1, fuel - 1);
          } else {
            var j :| 0 <= j < |es| && es[j].key == k;
          }
        }
      case _ =>
        WalkedPlain(es, defs, depth);
        BodyEntries(es, defs);
        var body := Body(es, defs);
        var e := PlainKeyKnown(body, k, defs, depth, fuel);
        assert e in es;
        var j :| 0 <= j < |es| && es[j] == e;
        assert EntryMayHave(es[j].key, es[j].value, k, defs, fuel);
    }
  }

  lemma BoolsWalk(v: Value, defs: seq<Entry>, depth: nat)
    ensures v.Bool? ==> !Walked(v, defs, depth).Obj?
  {
  }

  lemma {:induction false} PlainKeyKnown(es: seq<Entry>, k: string, defs: seq<Entry>, depth: nat, fuel: nat)
    returns (e: Entry)
    requires depth <= MAX_DEPTH && DefsInFragment(defs) && fuel >= Left(depth)
    requires Get(Lifted(WalkedEntries(es, defs, depth)), k).Some?
    ensures e in es && EntryMayHave(e.key, e.value, k, defs, fuel)
    decreases Left(depth), 1
  {
    hide InFragment, Lifted, WalkedEntries, Get, KeywordOf, OutKey, Walked, EntryMayHave, IsBareNull;
    var out := WalkedEntries(es, defs, depth);
    LiftedComesFrom(out, k);
    if Get(out, k).Some? {
      KeyComesFrom(es, defs, depth, k);
      var j :| 0 <= j < |es|
        && ((OutKey(es[j].key) == k && KeywordOf(es[j].key) !in {Meta, Closed})
            || (k == "nullable" && es[j].key == "type" && es[j].value.Arr? && Str("null") in es[j].value.items));
      e := es[j];
      KeptKey(e, k, defs, fuel);
    } else {
      ListComesFrom(es, defs, depth);
      var j :| 0 <= j < |es| && KeywordOf(es[j].key) in {AnyOf, OneOf}
        && Get(out, "anyOf") == Some(Walked(es[j].value, defs, depth + 1));
      e := es[j];
      ArraysWalk(e.value, defs, depth + 1);
      var list := ListOf(out);
      var m :| m in list && ((k == "nullable" && IsBareNull(m)) || (m.Obj? && Get(m.entries, k).Some?));
      MemberKeyKnown(e, m, k, defs, depth, fuel);
    }
  }

  lemma KeptKey(e: Entry, k: string, defs: seq<Entry>, fuel: nat)
    requires OutKey(e.key) == k || (k == "nullable" && e.key == "type" && e.value.Arr? && Str("null") in e.value.items)
    ensures EntryMayHave(e.key, e.value, k, defs, fuel)
  {
    TypeKeyword();
    hide KeywordOf;
  }

  lemma {:induction false} MemberKeyKnown(e: Entry, m: Value, k: string, defs: seq<Entry>, depth: nat, fuel: nat)
    requires depth <= MAX_DEPTH && DefsInFragment(defs) && fuel >= Left(depth)
    requires KeywordOf(e.key) in {AnyOf, OneOf} && e.value.Arr? && depth + 1 <= MAX_DEPTH
    requires Walked(e.value, defs, depth + 1) == Arr(WalkedItems(e.value.items, defs, depth + 2))
    requires m in Walked(e.value, defs, depth + 1).items
    requires (k == "nullable" && IsBareNull(m)) || (m.Obj? && Get(m.entries, k).Some?)
    ensures EntryMayHave(e.key, e.value, k, defs, fuel)
    decreases Left(depth), 0
  {
    hide InFragment, Get, KeywordOf, OutKey, Walked, MayHave, Solid;
    var n := MemberOf(e.value, m, defs, depth + 1);
    var member := e.value.items[n];
    if m.Obj? && Get(m.entries, k).Some? {
      OnlyObjectsWalkToObjects(member, defs, depth + 2);
      KeysKnown(member, k, defs, depth + 2, fuel);
    } else if Solid(member, defs, fuel) {
      SolidStays(member, defs, depth + 2, fuel);
    }
  }

  lemma TypeKeyword()
    ensures KeywordOf("type") == Type
  {
  }

  /** Only lists walk to lists, unless a definition is one. */
  lemma ArraysWalk(v: Value, defs: seq<Entry>, depth: nat)
    requires DefsInFragment(defs) && Walked(v, defs, depth).Arr?
    ensures v.Arr? && depth <= MAX_DEPTH && Walked(v, defs, depth) == Arr(WalkedItems(v.items, defs, depth + 1))
  {
    hide InFragment, WalkedObject;
    if !v.Arr? {
      OnlyArraysWalkToArrays(v, defs, depth);
    }
  }

  lemma MemberOf(v: Value, m: Value, defs: seq<Entry>, depth: nat) returns (n: nat)
    requires v.Arr? && depth <= MAX_DEPTH && Walked(v, defs, depth) == Arr(WalkedItems(v.items, defs, depth + 1))
    requires m in Walked(v, defs, depth).items
    ensures n < |v.items| && m == Walked(v.items[n], defs, depth + 1)
  {
    hide Walked;
    WalkedMember(v.items, defs, depth, m);
    n :| 0 <= n < |v.items| && m == Walked(v.items[n], defs, depth + 1);
  }

  lemma OnlyObjectsWalkToObjects(v: Value, defs: seq<Entry>, depth: nat)
    ensures Walked(v, defs, depth).Obj? ==> v.Obj? && depth <= MAX_DEPTH
  {
    hide WalkedObject;
  }

  lemma {:induction false} EntriesDistinct(es: seq<Entry>, defs: seq<Entry>, depth: nat)
    requires depth <= MAX_DEPTH
    ensures SchemaClean.Distinct(WalkedEntries(es, defs, depth))
    decreases |es|
  {
    hide SchemaClean.Distinct, WalkedEntry;
    if es == [] {
      assert SchemaClean.Distinct([]) by { NothingTwice(); }
    } else {
      var n := |es| - 1;
      EntriesDistinct(es[..n], defs, depth);
      EntryDistinct(WalkedEntries(es[..n], defs, depth), es[n], defs, depth);
    }
  }

  lemma EntryDistinct(acc: seq<Entry>, e: Entry, defs: seq<Entry>, depth: nat)
    requires depth <= MAX_DEPTH && SchemaClean.Distinct(acc)
    ensures SchemaClean.Distinct(WalkedEntry(acc, e, defs, depth))
  {
    hide SchemaClean.Distinct, Insert, KeywordOf, Walked, Retyped;
    SchemaClean.InsertDistinct(acc, "enum", Arr([e.value]));
    SchemaClean.InsertDistinct(acc, "anyOf", Walked(e.value, defs, depth + 1));
    SchemaClean.InsertDistinct(acc, e.key, Walked(e.value, defs, depth + 1));
    RetypedDistinct(e.value, acc);
  }

  lemma NothingTwice()
    ensures SchemaClean.Distinct([])
  {
  }

  lemma RetypedDistinct(value: Value, es: seq<Entry>)
    requires SchemaClean.Distinct(es)
    ensures SchemaClean.Distinct(Retyped(value, es))
  {
    hide SchemaClean.Distinct, Insert;
    SchemaClean.InsertDistinct(es, "type", value);
    if value.Arr? {
      var chosen := FirstNonNull(value.items);
      var out1 := if chosen.Some? then Insert(es, "type", chosen.value) else es;
      if chosen.Some? {
        SchemaClean.InsertDistinct(es, "type", chosen.value);
      }
      SchemaClean.InsertDistinct(out1, "nullable", Bool(true));
    }
  }

  lemma OrInsertDistinct(es: seq<Entry>, k: string, v: Value)
    requires SchemaClean.Distinct(es)
    ensures SchemaClean.Distinct(OrInsert(es, k, v))
  {
    hide SchemaClean.Distinct;
    if Get(es, k).None? {
      SchemaClean.AppendDistinct(es, Entry(k, v));
    }
  }

  lemma {:induction false} OrInsertAllDistinct(es: seq<Entry>, more: seq<Entry>)
    requires SchemaClean.Distinct(es)
    ensures SchemaClean.Distinct(OrInsertAll(es, more))
  {
    hide SchemaClean.Distinct, OrInsert;
    if more != [] {
      var init, last := more[..|more| - 1], more[|more| - 1];
      OrInsertAllDistinct(es, init);
      OrInsertDistinct(OrInsertAll(es, init), last.key, last.value);
    }
  }

  lemma LiftedDistinct(es: seq<Entry>)
    requires SchemaClean.Distinct(es)
    ensures SchemaClean.Distinct(Lifted(es))
  {
    if HasList(es) {
      var arr := ListOf(es);
      var kept := Retained(arr);
      LiftedIs(es, arr);
      hide Lifted, SchemaClean.Distinct, Insert, Remove, OrInsert, OrInsertAll, Retained;
      var out1 := Insert(es, "anyOf", Arr(kept));
      SchemaClean.InsertDistinct(es, "anyOf", Arr(kept));
      OrInsertDistinct(out1, "nullable", Bool(true));
      var shrunk := Shrunk(es, kept, |kept| != |arr|);
      SchemaClean.RemoveDistinct(shrunk, "anyOf");
      if |kept| == 1 && kept[0].Obj? {
        OrInsertAllDistinct(Remove(shrunk, "anyOf"), kept[0].entries);
      }
    }
  }

  lemma {:induction false} MergedDistinct(resolved: seq<Entry>, es: seq<Entry>, defs: seq<Entry>, depth: nat)
    requires depth <= MAX_DEPTH && SchemaClean.Distinct(resolved)
    ensures SchemaClean.Distinct(Merged(resolved, es, defs, depth))
    decreases |es|
  {
    hide SchemaClean.Distinct, OrInsert, Walked;
    if es != [] {
      var n := |es| - 1;
      MergedDistinct(resolved, es[..n], defs, depth);
      OrInsertDistinct(Merged(resolved, es[..n], defs, depth), es[n].key, Walked(es[n].value, defs, depth + 1));
    }
  }

  /** The output never has a key twice. */
  lemma {:induction false} WalkedDistinct(v: Value, defs: seq<Entry>, depth: nat)
    ensures Walked(v, defs, depth).Obj? ==> SchemaClean.Distinct(Walked(v, defs, depth).entries)
    decreases Left(depth)
  {
    hide SchemaClean.Distinct, Lifted, WalkedEntries, Merged, Get;
    if v.Obj? && depth <= MAX_DEPTH {
      var es := v.entries;
      match Target(es, defs) {
        case Some(Some(t)) =>
          WalkedDistinct(t, defs, depth + 1);
          WalkedReference(es, t, defs, depth);
          if Walked(t, defs, depth + 1).Obj? {
            MergedDistinct(Walked(t, defs, depth + 1).entries, es, defs, depth);
          }
        case _ =>
          WalkedPlain(es, defs, depth);
          EntriesDistinct(Body(es, defs), defs, depth);
          LiftedDistinct(WalkedEntries(Body(es, defs), defs, depth));
      }
    }
  }

  // ---------------------------------------------------------------------------------------------
  // What the output accepts
  // ---------------------------------------------------------------------------------------------

  /** What the theorem needs of a schema that is walked at this depth. */
  predicate Ready(v: Value, defs: seq<Entry>, depth: nat, fuel: nat) {
    && InFragment(v, defs) && DefsInFragment(defs) && WithinCap(v, defs, depth) && Apart(v, defs, fuel)
    && fuel >= Left(depth)
  }

  lemma {:induction false} StandingIsLoose(s: Value, i: Value, defs: seq<Entry>, fuel: nat, o: Oracle)
    requires Standing(s) && Accepts(s, i, [], 0, Plainly(o))
    ensures Loose(s, i, defs, fuel, o)
    decreases s, 0
  {
    if s.Obj? {
      var es := s.entries;
      NoReferenceStands(es, defs);
      if TakesNull(es, i) {
        var j :| 0 <= j < |es| && es[j] == Entry("nullable", Bool(true));
        NullableStays();
        assert EntryMayHave(es[j].key, es[j].value, "nullable", defs, fuel);
      } else {
        forall k | 0 <= k < |es| ensures LooseHolds(es[k].key, es[k].value, i, defs, fuel, o) {
          StandingKeeps(es[k].key, es[k].value, i, defs, fuel, o);
        }
      }
    }
  }

  lemma NoReferenceStands(es: seq<Entry>, defs: seq<Entry>)
    requires Standing(Obj(es))
    ensures Target(es, defs).None?
  {
    KeywordTable();
    hide KeywordOf;
  }

  lemma {:induction false} StandingKeeps(key: string, v: Value, i: Value, defs: seq<Entry>, fuel: nat, o: Oracle)
    requires StandingKeyword(key, v) && Holds(key, v, i, [], 0, Plainly(o))
    ensures LooseHolds(key, v, i, defs, fuel, o)
    decreases v, 1
  {
    hide KeywordOf, Standing, Accepts, Loose, Solid;
    var kw := KeywordOf(key);
    if kw == Properties && i.Obj? {
      forall p, q | 0 <= p < |v.entries| && 0 <= q < |i.entries| && v.entries[p].key == i.entries[q].key
        ensures Loose(v.entries[p].value, i.entries[q].value, defs, fuel, o)
      {
        StandingIsLoose(v.entries[p].value, i.entries[q].value, defs, fuel, o);
      }
    } else if kw == Items && i.Arr? {
      forall x <- i.items ensures Loose(v, x, defs, fuel, o) {
        StandingIsLoose(v, x, defs, fuel, o);
      }
    } else if kw == AnyOf {
      var m :| 0 <= m < |v.items| && Accepts(v.items[m], i, [], 0, Plainly(o));
      StandingIsLoose(v.items[m], i, defs, fuel, o);
    }
  }

  lemma {:induction false} ObjectsWalkToObjects(v: Value, defs: seq<Entry>, depth: nat, fuel: nat)
    requires v.Obj? && Apart(v, defs, fuel) && WithinCap(v, defs, depth)
    ensures Walked(v, defs, depth).Obj?
    decreases Left(depth)
  {
    hide Lifted, WalkedEntries, Merged, EntryApart, MayStandBeside, Clear;
    match Target(v.entries, defs) {
      case Some(Some(t)) =>
        ObjectsWalkToObjects(t, defs, depth + 1, fuel - 1);
        WalkedReference(v.entries, t, defs, depth);
      case _ => WalkedPlain(v.entries, defs, depth);
    }
  }

  /** What the output has under a key holds. */
  lemma HeldUnder(out: seq<Entry>, k: string, i: Value, o: Oracle)
    requires AllHold(out, i, o) && Get(out, k).Some?
    ensures Holds(k, Get(out, k).value, i, [], 0, Plainly(o))
  {
    hide Holds;
    var v := Get(out, k).value;
    var j :| 0 <= j < |out| && out[j] == Entry(k, v);
    assert Holds(out[j].key, out[j].value, i, [], 0, Plainly(o));
  }

  /** Whatever the walked schema accepts, the schema accepts in the loose reading. */
  lemma {:induction false} WalkKeeps(v: Value, i: Value, defs: seq<Entry>, depth: nat, fuel: nat, o: Oracle)
    requires Ready(v, defs, depth, fuel) && Accepts(Walked(v, defs, depth), i, [], 0, Plainly(o))
    ensures Loose(v, i, defs, fuel, o)
    decreases Left(depth), 9
  {
    hide InFragment, Holds, WalkedObject, MayHave, Shadowed, LooseHolds, Apart;
    if v.Obj? {
      ObjectsWalkToObjects(v, defs, depth, fuel);
      var es, out := v.entries, Walked(v, defs, depth).entries;
      if TakesNull(out, i) {
        KeysKnown(v, "nullable", defs, depth, fuel);
      } else {
        OutAcceptsIsAccepts(out, i, o);
        match Target(es, defs) {
          case Some(Some(t)) => ReferenceKeeps(es, t, i, defs, depth, fuel, o);
          case _ => PlainKeeps(es, i, defs, depth, fuel, o);
        }
      }
    }
  }

  lemma EntryReady(es: seq<Entry>, k: nat, defs: seq<Entry>, fuel: nat)
    requires InFragment(Obj(es), defs) && Apart(Obj(es), defs, fuel) && k < |es|
    ensures KeywordInFragment(es[k].key, es[k].value, defs) && EntryApart(es[k].key, es[k].value, defs, fuel)
            && Clear(es)
    ensures Target(es, defs).Some? && Target(es, defs).value.Some? ==> BesideRef(es[k].key, es[k].value)
  {
    hide KeywordInFragment, EntryApart, Clear, BesideRef, MayStandBeside;
    assert Obj(es).entries[k] in Obj(es).entries;
  }

  lemma {:induction false} ReferenceKeeps(es: seq<Entry>, t: Value, i: Value, defs: seq<Entry>, depth: nat, fuel: nat,
                                          o: Oracle)
    requires depth <= MAX_DEPTH && Ready(Obj(es), defs, depth, fuel) && Target(es, defs) == Some(Some(t))
    requires Walked(Obj(es), defs, depth).Obj? && AllHold(Walked(Obj(es), defs, depth).entries, i, o)
    ensures forall k :: 0 <= k < |es| ==>
              Shadowed(es, es[k].key, defs, fuel) || LooseHolds(es[k].key, es[k].value, i, defs, fuel, o)
    decreases Left(depth), 6
  {
    hide InFragment, Walked, Merged, Accepts, AllHold, LooseHolds, Apart, MayHave, WithinCap, Loose;
    TargetReady(es, t, defs, depth, fuel);
    WalkedReference(es, t, defs, depth);
    WalkedIsObject(es, defs, depth);
    ObjectsWalkToObjects(t, defs, depth + 1, fuel - 1);
    var resolved, out := Walked(t, defs, depth + 1).entries, Walked(Obj(es), defs, depth).entries;
    ResolvedHolds(resolved, es, i, defs, depth, o);
    OutAcceptsIsAccepts(resolved, i, o);
    WalkKeeps(t, i, defs, depth + 1, fuel - 1, o);
    forall k | 0 <= k < |es|
      ensures Shadowed(es, es[k].key, defs, fuel) || LooseHolds(es[k].key, es[k].value, i, defs, fuel, o)
    {
      EntryReady(es, k, defs, fuel);
      if es[k].key == "$ref" {
        RefKeeps(es, k, t, i, defs, fuel, o);
      } else if Get(resolved, es[k].key).Some? {
        KeysKnown(t, es[k].key, defs, depth + 1, fuel - 1);
      } else {
        SiblingKeeps(resolved, es, k, i, defs, depth, fuel, o);
      }
    }
  }

  lemma WalkedIsObject(es: seq<Entry>, defs: seq<Entry>, depth: nat)
    requires depth <= MAX_DEPTH
    ensures Walked(Obj(es), defs, depth) == WalkedObject(es, defs, depth)
  {
    hide WalkedObject;
  }

  lemma TargetReady(es: seq<Entry>, t: Value, defs: seq<Entry>, depth: nat, fuel: nat)
    requires depth <= MAX_DEPTH && Ready(Obj(es), defs, depth, fuel) && Target(es, defs) == Some(Some(t))
    ensures fuel > 0 && t.Obj? && Ready(t, defs, depth + 1, fuel - 1)
  {
    hide InFragment, EntryApart, Clear, MayStandBeside;
    TargetIsSchema(es, defs, t);
  }

  lemma ResolvedHolds(resolved: seq<Entry>, es: seq<Entry>, i: Value, defs: seq<Entry>, depth: nat, o: Oracle)
    requires depth <= MAX_DEPTH && AllHold(Merged(resolved, es, defs, depth), i, o)
    ensures AllHold(resolved, i, o)
  {
    hide Holds, Merged;
    var out := Merged(resolved, es, defs, depth);
    MergedKeys(resolved, es, defs, depth, "");
    forall j | 0 <= j < |resolved| ensures Holds(resolved[j].key, resolved[j].value, i, [], 0, Plainly(o)) {
      assert resolved[j] in out;
      var k :| 0 <= k < |out| && out[k] == resolved[j];
    }
  }

  lemma RefKeeps(es: seq<Entry>, k: nat, t: Value, i: Value, defs: seq<Entry>, fuel: nat, o: Oracle)
    requires k < |es| && es[k].key == "$ref" && Clear(es) && Target(es, defs) == Some(Some(t))
    requires fuel > 0 && Loose(t, i, defs, fuel - 1, o)
    ensures LooseHolds(es[k].key, es[k].value, i, defs, fuel, o)
  {
    Schema.KeywordAnyOneRef();
    hide KeywordOf, Loose, OutKey;
    var v := Get(es, "$ref").value;
    var j :| 0 <= j < |es| && es[j] == Entry("$ref", v);
    SameKey(es, j, k);
  }

  lemma SameKey(es: seq<Entry>, j: nat, k: nat)
    requires Clear(es) && j < |es| && k < |es| && OutKey(es[j].key) == OutKey(es[k].key)
    ensures j == k
  {
    hide OutKey;
  }

  lemma {:induction false} SiblingKeeps(resolved: seq<Entry>, es: seq<Entry>, k: nat, i: Value, defs: seq<Entry>,
                                        depth: nat, fuel: nat, o: Oracle)
    requires depth <= MAX_DEPTH && Ready(Obj(es), defs, depth, fuel) && k < |es| && es[k].key != "$ref"
    requires Target(es, defs).Some? && Target(es, defs).value.Some? && Get(resolved, es[k].key).None?
    requires AllHold(Merged(resolved, es, defs, depth), i, o)
    ensures LooseHolds(es[k].key, es[k].value, i, defs, fuel, o)
    decreases Left(depth), 5
  {
    hide InFragment, Apart, Merged, AllHold, Holds, WithinCap, KeywordInFragment, EntryApart, Clear, KeywordOf;
    hide LooseHolds;
    hide SchemaClean.Clean;
    var e := es[k];
    EntryReady(es, k, defs, fuel);
    SiblingMerged(resolved, es, k, defs, depth);
    HeldUnder(Merged(resolved, es, defs, depth), e.key, i, o);
    if KeywordOf(e.key) == Meta {
      MetaSaysNothing(e, i, defs, fuel, o);
    } else {
      NotARef(e.key);
      SiblingWithin(es, k, defs, depth);
      HoldsKeeps(e.key, e.value, i, defs, depth + 1, fuel, o);
    }
  }

  lemma SiblingMerged(resolved: seq<Entry>, es: seq<Entry>, k: nat, defs: seq<Entry>, depth: nat)
    requires depth <= MAX_DEPTH && Clear(es) && k < |es| && es[k].key != "$ref" && Get(resolved, es[k].key).None?
    ensures Get(Merged(resolved, es, defs, depth), es[k].key) == Some(Walked(es[k].value, defs, depth + 1))
  {
    hide Merged, Get, OutKey, Clear, Walked;
    MergedKeys(resolved, es, defs, depth, es[k].key);
    assert es[k] in es;
    var out := Merged(resolved, es, defs, depth);
    var j :| 0 <= j < |es| && es[j].key == es[k].key
        && Get(out, es[k].key) == Some(Walked(es[j].value, defs, depth + 1));
    SameKey(es, j, k);
  }

  lemma SiblingWithin(es: seq<Entry>, k: nat, defs: seq<Entry>, depth: nat)
    requires depth <= MAX_DEPTH && WithinCap(Obj(es), defs, depth) && k < |es|
    requires Target(es, defs).Some? && Target(es, defs).value.Some? && KeywordOf(es[k].key) !in {Ref, Meta}
    ensures WithinCap(es[k].value, defs, depth + 1)
  {
    hide KeywordOf;
  }

  lemma MetaSaysNothing(e: Entry, i: Value, defs: seq<Entry>, fuel: nat, o: Oracle)
    requires KeywordOf(e.key) in {Meta, Closed, Note}
    ensures LooseHolds(e.key, e.value, i, defs, fuel, o)
  {
    hide KeywordOf;
  }

  lemma NotARef(key: string)
    ensures key != "$ref" <==> KeywordOf(key) != Ref
  {
    KeywordTable();
    hide KeywordOf;
  }

  // Keywords whose value is walked

  /** A keyword that holds with its value walked holds in the loose reading. */
  lemma {:induction false} HoldsKeeps(key: string, v: Value, i: Value, defs: seq<Entry>, depth: nat, fuel: nat,
                                      o: Oracle)
    requires KeywordInFragment(key, v, defs) && DefsInFragment(defs) && EntryApart(key, v, defs, fuel)
    requires WithinCap(v, defs, depth) && fuel >= Left(depth)
    requires KeywordOf(key) !in {Ref, OneOf, Meta} && (KeywordOf(key) == Const ==> SchemaClean.Clean(v))
    requires Holds(key, Walked(v, defs, depth), i, [], 0, Plainly(o))
    ensures LooseHolds(key, v, i, defs, fuel, o)
    decreases Left(depth), 10
  {
    hide KeywordOf, Standing, Loose, Accepts, InFragment, Apart;
    match KeywordOf(key) {
      case Type => TypeKeeps(v, i, defs, depth);
      case Enum => EnumKeeps(v, i, defs, depth);
      case Const => CleanWithinWalks(v, defs, depth);
      case Properties =>
        OnlyObjects(v, defs, depth);
        if v.Obj? {
          PropertiesKeep(key, v.entries, i, defs, depth, fuel, o);
        }
      case Required => RequiredKeeps(v, i, defs, depth);
      case Items =>
        if i.Arr? {
          forall x <- i.items ensures Loose(v, x, defs, fuel, o) {
            WalkKeeps(v, x, defs, depth, fuel, o);
          }
        }
      case AnyOf => AnyKeeps(v, i, defs, depth, fuel, o);
      case Plain => CleanWithinWalks(v, defs, depth);
      case _ =>
    }
  }

  lemma OnlyObjects(v: Value, defs: seq<Entry>, depth: nat)
    ensures Walked(v, defs, depth).Obj? ==> v.Obj?
  {
    OnlyObjectsWalkToObjects(v, defs, depth);
  }

  lemma StringsOnly(items: seq<Value>, defs: seq<Entry>, depth: nat, m: nat)
    requires DefsInFragment(defs) && m < |items|
    ensures WalkedItems(items, defs, depth)[m] == Walked(items[m], defs, depth)
    ensures WalkedItems(items, defs, depth)[m].Str? ==> WalkedItems(items, defs, depth)[m] == items[m]
  {
    hide InFragment, Walked;
    OnlyStringsWalkToStrings(items[m], defs, depth);
  }

  lemma TypeKeeps(v: Value, i: Value, defs: seq<Entry>, depth: nat)
    requires DefsInFragment(defs) && TypeHolds(Walked(v, defs, depth), i)
    ensures TypeHolds(v, i)
  {
    hide InFragment, WalkedObject;
    OnlyStringsWalkToStrings(v, defs, depth);
    if Walked(v, defs, depth).Arr? {
      ArraysWalk(v, defs, depth);
      var w := WalkedItems(v.items, defs, depth + 1);
      var t :| t in w && t.Str? && HasType(i, t.s);
      var m :| 0 <= m < |w| && w[m] == t;
      StringsOnly(v.items, defs, depth + 1, m);
      assert v.items[m] in v.items;
    }
  }

  lemma EnumKeeps(v: Value, i: Value, defs: seq<Entry>, depth: nat)
    requires DefsInFragment(defs) && WithinCap(v, defs, depth)
             && (v.Arr? ==> forall x <- v.items :: SchemaClean.Clean(x))
    requires Walked(v, defs, depth).Arr? && i in Walked(v, defs, depth).items
    ensures v.Arr? && i in v.items
  {
    hide InFragment, Walked, SchemaClean.Clean;
    ArraysWalk(v, defs, depth);
    var n := MemberOf(v, i, defs, depth);
    assert v.items[n] in v.items;
    CleanWithinWalks(v.items[n], defs, depth + 1);
  }

  lemma RequiredKeeps(v: Value, i: Value, defs: seq<Entry>, depth: nat)
    requires DefsInFragment(defs) && Walked(v, defs, depth).Arr?
    requires i.Obj? ==> forall r <- Walked(v, defs, depth).items :: r.Str? && Has(i.entries, r.s)
    ensures v.Arr? && (i.Obj? ==> forall r <- v.items :: r.Str? && Has(i.entries, r.s))
  {
    hide InFragment, Walked, Has;
    ArraysWalk(v, defs, depth);
    if i.Obj? {
      var w := WalkedItems(v.items, defs, depth + 1);
      forall r <- v.items ensures r.Str? && Has(i.entries, r.s) {
        var m :| 0 <= m < |v.items| && v.items[m] == r;
        assert w[m] in w;
        StringsOnly(v.items, defs, depth + 1, m);
      }
    }
  }

  lemma MemberReady(v: Value, defs: seq<Entry>, depth: nat, fuel: nat, m: nat)
    requires DefsInFragment(defs) && MembersApart(v, defs, fuel) && WithinCap(v, defs, depth) && fuel >= Left(depth)
    requires v.Arr? && (forall n :: 0 <= n < |v.items| ==> InFragment(v.items[n], defs)) && m < |v.items|
    ensures Ready(v.items[m], defs, depth + 1, fuel) && (v.items[m].Obj? || v.items[m] == Bool(true))
  {
    hide InFragment, Apart;
  }

  lemma {:induction false} AnyKeeps(v: Value, i: Value, defs: seq<Entry>, depth: nat, fuel: nat, o: Oracle)
    requires DefsInFragment(defs) && MembersApart(v, defs, fuel) && WithinCap(v, defs, depth) && fuel >= Left(depth)
    requires v.Arr? ==> forall m :: 0 <= m < |v.items| ==> InFragment(v.items[m], defs)
    requires Walked(v, defs, depth).Arr?
    requires exists m ::
               0 <= m < |Walked(v, defs, depth).items| && Accepts(Walked(v, defs, depth).items[m], i, [], 0, Plainly(o))
    ensures LooseAny(v, i, defs, fuel, o)
    decreases Left(depth), 7
  {
    hide InFragment, Walked, Accepts, Loose, Solid, MembersApart, WithinCap;
    ArraysWalk(v, defs, depth);
    var w := Walked(v, defs, depth).items;
    var m :| 0 <= m < |w| && Accepts(w[m], i, [], 0, Plainly(o));
    var n := MemberOf(v, w[m], defs, depth);
    MemberReady(v, defs, depth, fuel, n);
    WalkKeeps(v.items[n], i, defs, depth + 1, fuel, o);
  }

  lemma {:induction false} PropertiesKeep(key: string, ps: seq<Entry>, i: Value, defs: seq<Entry>, depth: nat,
                                          fuel: nat,
                                          o: Oracle)
    requires KeywordOf(key) == Properties && DefsInFragment(defs) && PropertiesIn(ps, defs) && Clear(ps)
    requires forall p :: 0 <= p < |ps| ==> Apart(ps[p].value, defs, fuel)
    requires WithinCap(Obj(ps), defs, depth) && fuel >= Left(depth)
    requires Holds(key, Walked(Obj(ps), defs, depth), i, [], 0, Plainly(o))
    ensures LooseHolds(key, Obj(ps), i, defs, fuel, o)
    decreases Left(depth), 7
  {
    hide KeywordOf, InFragment, Apart, Loose, Accepts, WithinCap, WalkedEntries, Clear, Get;
    WalkedProperties(ps, defs, depth);
    var out := WalkedEntries(ps, defs, depth);
    if i.Obj? {
      forall p, q | 0 <= p < |ps| && 0 <= q < |i.entries| && ps[p].key == i.entries[q].key
        ensures KeywordOf(ps[p].key) in {Meta, Closed} || Loose(ps[p].value, i.entries[q].value, defs, fuel, o)
      {
        if KeywordOf(ps[p].key) !in {Meta, Closed} {
          PropertySurvives(ps, p, defs, depth);
          var w := PropertyWalked(ps[p], defs, depth);
          GetIsIn(out, ps[p].key);
          var j :| 0 <= j < |out| && out[j] == Entry(ps[p].key, w);
          assert Accepts(Obj(out).entries[j].value, i.entries[q].value, [], 0, Plainly(o));
          PropertyKeeps(ps, p, i.entries[q].value, defs, depth, fuel, o);
        }
      }
    }
    assert forall p :: 0 <= p < |ps| ==> Obj(ps).entries[p] == ps[p];
  }

  lemma WalkedProperties(ps: seq<Entry>, defs: seq<Entry>, depth: nat)
    requires DefsInFragment(defs) && PropertiesIn(ps, defs) && WithinCap(Obj(ps), defs, depth)
    ensures depth <= MAX_DEPTH && Walked(Obj(ps), defs, depth) == Obj(WalkedEntries(ps, defs, depth))
  {
    hide InFragment, KeywordOf, WalkedEntries, Standing;
    PropertiesNoRef(ps, defs);
    WalkedPlain(ps, defs, depth);
    var out := WalkedEntries(ps, defs, depth);
    LiftedKeys(out, "");
    if HasList(out) {
      ListComesFrom(ps, defs, depth);
      var j :| 0 <= j < |ps| && KeywordOf(ps[j].key) in {AnyOf, OneOf}
        && Get(out, "anyOf") == Some(Walked(ps[j].value, defs, depth + 1));
      ArraysWalk(ps[j].value, defs, depth + 1);
    }
  }

  lemma PropertySurvives(ps: seq<Entry>, p: nat, defs: seq<Entry>, depth: nat)
    requires depth <= MAX_DEPTH && PropertiesIn(ps, defs) && Clear(ps) && p < |ps|
    requires KeywordOf(ps[p].key) !in {Meta, Closed}
    ensures Get(WalkedEntries(ps, defs, depth), ps[p].key) == Some(PropertyWalked(ps[p], defs, depth))
  {
    hide InFragment, KeywordOf, WalkedEntries, Clear, Get, Walked;
    assert IsSchema(ps[p].value);
    EntrySurvives(ps, defs, depth, p);
  }

  lemma {:induction false} PropertyKeeps(ps: seq<Entry>, p: nat, i: Value, defs: seq<Entry>, depth: nat, fuel: nat,
                                         o: Oracle)
    requires depth <= MAX_DEPTH && DefsInFragment(defs) && PropertiesIn(ps, defs) && p < |ps|
    requires Apart(ps[p].value, defs, fuel) && WithinCap(Obj(ps), defs, depth) && fuel >= Left(depth)
    requires KeywordOf(ps[p].key) !in {Meta, Closed}
    requires Accepts(PropertyWalked(ps[p], defs, depth), i, [], 0, Plainly(o))
    ensures Loose(ps[p].value, i, defs, fuel, o)
    decreases Left(depth), 6
  {
    hide KeywordOf, InFragment, Apart, Loose, Accepts, Standing;
    PropertiesNoRef(ps, defs);
    if KeywordOf(ps[p].key) == Type {
      StandingIsLoose(ps[p].value, i, defs, fuel, o);
    } else {
      assert WithinCap(Obj(ps).entries[p].value, defs, depth + 1);
      WalkKeeps(ps[p].value, i, defs, depth + 1, fuel, o);
    }
  }

  // Objects without a reference

  lemma {:induction false} PlainKeeps(es: seq<Entry>, i: Value, defs: seq<Entry>, depth: nat, fuel: nat, o: Oracle)
    requires depth <= MAX_DEPTH && Ready(Obj(es), defs, depth, fuel)
    requires Target(es, defs).None? || Target(es, defs).value.None?
    requires Walked(Obj(es), defs, depth).Obj? && AllHold(Walked(Obj(es), defs, depth).entries, i, o)
    ensures forall k :: 0 <= k < |es| ==> LooseHolds(es[k].key, es[k].value, i, defs, fuel, o)
    decreases Left(depth), 8
  {
    hide InFragment, Walked, WalkedEntries, Lifted, AllHold, LooseHolds, Apart, WithinCap, Body;
    WalkedPlain(es, defs, depth);
    forall k | 0 <= k < |es| ensures LooseHolds(es[k].key, es[k].value, i, defs, fuel, o) {
      EntryKeeps(es, k, i, defs, depth, fuel, o);
    }
  }

  lemma BodyClear(es: seq<Entry>, defs: seq<Entry>)
    requires Clear(es)
    ensures Clear(Body(es, defs))
  {
    hide OutKey;
    if Target(es, defs).Some? {
      ClearRemoved(es);
    }
  }

  lemma ClearRemoved(es: seq<Entry>)
    requires Clear(es)
    ensures Clear(Remove(es, "$ref"))
  {
    hide OutKey;
    var r := Remove(es, "$ref");
    OutKeysDistinct(es);
    assert Has(r, "nullable") ==> Has(es, "nullable") by {
      if Has(r, "nullable") {
        var j :| 0 <= j < |r| && r[j].key == "nullable";
        assert r[j] in es;
      }
    }
    forall e <- r ensures e in es {
      var j :| 0 <= j < |r| && r[j] == e;
    }
  }

  lemma DistinctCons(e: Entry, t: seq<Entry>)
    requires forall k :: 0 <= k < |t| ==> OutKey(t[k].key) != OutKey(e.key)
    requires OutDistinct(t)
    ensures OutDistinct([e] + t)
  {
    hide OutKey;
  }

  lemma {:induction false} OutKeysDistinct(es: seq<Entry>)
    requires OutDistinct(es)
    ensures OutDistinct(Remove(es, "$ref"))
  {
    hide OutKey;
    if es != [] {
      OutKeysDistinct(es[1..]);
      var t := Remove(es[1..], "$ref");
      if es[0].key != "$ref" {
        forall k | 0 <= k < |t| ensures OutKey(t[k].key) != OutKey(es[0].key) {
          assert t[k] in es[1..];
          var j :| 0 <= j < |es[1..]| && es[1..][j] == t[k];
          assert es[j + 1] == t[k];
        }
        DistinctCons(es[0], t);
        assert Remove(es, "$ref") == [es[0]] + t;
      } else {
        assert Remove(es, "$ref") == t;
      }
    }
  }

  lemma {:induction false} EntryKeeps(es: seq<Entry>, k: nat, i: Value, defs: seq<Entry>, depth: nat, fuel: nat,
                                      o: Oracle)
    requires depth <= MAX_DEPTH && Ready(Obj(es), defs, depth, fuel) && k < |es|
    requires Target(es, defs).None? || Target(es, defs).value.None?
    requires AllHold(Lifted(WalkedEntries(Body(es, defs), defs, depth)), i, o)
    ensures LooseHolds(es[k].key, es[k].value, i, defs, fuel, o)
    decreases Left(depth), 7
  {
    hide InFragment, Walked, WalkedEntries, Lifted, AllHold, LooseHolds, Apart, WithinCap, Body, KeywordOf, Get, Clear;
    hide KeywordInFragment, EntryApart, Contributed;
    var e, body := es[k], Body(es, defs);
    EntryReady(es, k, defs, fuel);
    if e.key == "$ref" && Target(es, defs).Some? {
      LostRefKeeps(es, k, i, defs, fuel, o);
    } else if KeywordOf(e.key) in {Meta, Closed, Note} {
      MetaSaysNothing(e, i, defs, fuel, o);
    } else {
      BodyClear(es, defs);
      var j := InBody(es, k, defs);
      if KeywordOf(e.key) in {AnyOf, OneOf} {
        ListKeeps(es, k, j, i, defs, depth, fuel, o);
      } else {
        PlainEntryKeeps(es, k, j, i, defs, depth, fuel, o);
      }
    }
  }

  lemma InBody(es: seq<Entry>, k: nat, defs: seq<Entry>) returns (j: nat)
    requires k < |es| && (es[k].key == "$ref" ==> Target(es, defs).None?)
    ensures j < |Body(es, defs)| && Body(es, defs)[j] == es[k]
  {
    BodyEntries(es, defs);
    assert es[k] in es;
    var body := Body(es, defs);
    assert es[k] in body;
    j :| 0 <= j < |body| && body[j] == es[k];
  }

  lemma LostRefKeeps(es: seq<Entry>, k: nat, i: Value, defs: seq<Entry>, fuel: nat, o: Oracle)
    requires k < |es| && es[k].key == "$ref" && Clear(es) && Target(es, defs) == Some(None)
    ensures LooseHolds(es[k].key, es[k].value, i, defs, fuel, o)
  {
    Schema.KeywordAnyOneRef();
    hide KeywordOf, OutKey, Loose;
    var v := Get(es, "$ref").value;
    var j :| 0 <= j < |es| && es[j] == Entry("$ref", v);
    SameKey(es, j, k);
  }

  /** A keyword that stays what it is, or becomes `enum`. */
  lemma {:induction false} PlainEntryKeeps(es: seq<Entry>, k: nat, j: nat, i: Value, defs: seq<Entry>, depth: nat,
                                           fuel: nat, o: Oracle)
    requires depth <= MAX_DEPTH && Ready(Obj(es), defs, depth, fuel) && k < |es|
    requires Target(es, defs).None? || Target(es, defs).value.None?
    requires Clear(Body(es, defs)) && j < |Body(es, defs)| && Body(es, defs)[j] == es[k]
    requires KeywordOf(es[k].key) !in {Meta, Closed, Note, AnyOf, OneOf}
    requires AllHold(Lifted(WalkedEntries(Body(es, defs), defs, depth)), i, o)
    ensures LooseHolds(es[k].key, es[k].value, i, defs, fuel, o)
    decreases Left(depth), 6
  {
    hide InFragment, Walked, WalkedEntries, Lifted, AllHold, Holds, LooseHolds, Apart, WithinCap, Body, KeywordOf, Get;
    hide Clear;
    hide KeywordInFragment, EntryApart, Contributed, SchemaClean.Clean;
    var e, body := es[k], Body(es, defs);
    EntryReady(es, k, defs, fuel);
    NotNullableKey(e, defs);
    if Contributed(e, defs, depth).Some? {
      var out := WalkedEntries(body, defs, depth);
      EntrySurvives(body, defs, depth, j);
      LiftedKeys(out, OutKey(e.key));
      HeldUnder(Lifted(out), OutKey(e.key), i, o);
    }
    if KeywordOf(e.key) in {Type, Const} {
      OneValueKeeps(e, i, defs, depth, fuel, o);
    } else if KeywordOf(e.key) == Ref {
      KeptAsItIs(e, defs, depth);
      NoRefHolds(e.key, Walked(e.value, defs, depth + 1), i, o);
      assert false;
    } else {
      PlainWithin(es, k, defs, depth);
      KeptAsItIs(e, defs, depth);
      HoldsKeeps(e.key, e.value, i, defs, depth + 1, fuel, o);
    }
  }

  lemma NotNullableKey(e: Entry, defs: seq<Entry>)
    requires KeywordInFragment(e.key, e.value, defs) && KeywordOf(e.key) !in {AnyOf, OneOf}
    ensures OutKey(e.key) !in {"anyOf", "nullable"}
  {
    EntryFacts(e.key, e.value, defs);
    KeywordTable();
    hide KeywordOf, KeywordInFragment;
  }

  lemma KeptAsItIs(e: Entry, defs: seq<Entry>, depth: nat)
    requires depth <= MAX_DEPTH && KeywordOf(e.key) !in {Meta, Closed, Type, Const, OneOf}
    ensures OutKey(e.key) == e.key && Contributed(e, defs, depth) == Some(Walked(e.value, defs, depth + 1))
  {
    hide KeywordOf, Walked;
  }

  lemma PlainWithin(es: seq<Entry>, k: nat, defs: seq<Entry>, depth: nat)
    requires depth <= MAX_DEPTH && WithinCap(Obj(es), defs, depth) && k < |es|
    requires Target(es, defs).None? || Target(es, defs).value.None?
    requires KeywordOf(es[k].key) !in {Meta, Closed, Type, Const, Ref}
    ensures WithinCap(es[k].value, defs, depth + 1)
  {
    NotARef(es[k].key);
    hide KeywordOf;
  }

  lemma OneValueKeeps(e: Entry, i: Value, defs: seq<Entry>, depth: nat, fuel: nat, o: Oracle)
    requires depth <= MAX_DEPTH && KeywordOf(e.key) in {Type, Const} && EntryApart(e.key, e.value, defs, fuel)
    requires Contributed(e, defs, depth).Some? ==>
      Holds(OutKey(e.key), Contributed(e, defs, depth).value, i, [], 0, Plainly(o))
    ensures LooseHolds(e.key, e.value, i, defs, fuel, o)
  {
    KeywordTable();
    if e.value.Arr? {
      FirstNonNullIn(e.value.items);
    }
    hide KeywordOf, Accepts, Loose;
  }

  /** The output is read without references. */
  lemma NoRefHolds(key: string, v: Value, i: Value, o: Oracle)
    requires KeywordOf(key) == Ref
    ensures !Holds(key, v, i, [], 0, Plainly(o))
  {
    hide KeywordOf;
    if v.Str? {
      assert Resolve(v.s, []).None?;
    }
  }

  /** A list of alternatives, under either name. */
  lemma {:induction false} ListKeeps(es: seq<Entry>, k: nat, j: nat, i: Value, defs: seq<Entry>, depth: nat, fuel: nat,
                                     o: Oracle)
    requires depth <= MAX_DEPTH && Ready(Obj(es), defs, depth, fuel) && k < |es|
    requires Target(es, defs).None? || Target(es, defs).value.None?
    requires Clear(Body(es, defs)) && j < |Body(es, defs)| && Body(es, defs)[j] == es[k]
    requires KeywordOf(es[k].key) in {AnyOf, OneOf}
    requires AllHold(Lifted(WalkedEntries(Body(es, defs), defs, depth)), i, o)
    ensures LooseHolds(es[k].key, es[k].value, i, defs, fuel, o)
    decreases Left(depth), 6
  {
    hide InFragment, Walked, WalkedEntries, Lifted, AllHold, Holds, LooseHolds, Apart, WithinCap, Body, KeywordOf, Get;
    hide Clear;
    hide KeywordInFragment, EntryApart, Contributed, LooseAny, MembersApart, Retained;
    var e := es[k];
    var out := WalkedEntries(Body(es, defs), defs, depth);
    AnyOfKey(e, defs, depth);
    EntrySurvives(Body(es, defs), defs, depth, j);
    ListReady(es, k, defs, depth, fuel);
    LiftedKeys(out, "anyOf");
    HeldList(out, i, o);
    ArraysWalk(e.value, defs, depth + 1);
    if |Retained(ListOf(out))| == 1 {
      AloneKeeps(es, k, i, defs, depth, fuel, o);
    } else {
      ManyKeep(e.value, i, defs, depth + 1, fuel, o);
    }
    AnyIsLoose(e, i, defs, fuel, o);
  }

  /** A list that holds is a list. */
  lemma HeldList(out: seq<Entry>, i: Value, o: Oracle)
    requires Get(out, "anyOf").Some? && AllHold(Lifted(out), i, o)
    ensures HasList(out)
    ensures var kept := Retained(ListOf(out)); |kept| > 1 ==> Holds("anyOf", Arr(kept), i, [], 0, Plainly(o))
  {
    LiftedKeys(out, "anyOf");
    hide Holds, Lifted, Get, Retained, AllHold;
    if HasList(out) {
      if |Retained(ListOf(out))| > 1 {
        HeldUnder(Lifted(out), "anyOf", i, o);
      }
    } else {
      HeldUnder(Lifted(out), "anyOf", i, o);
      OnlyListsHold(Get(out, "anyOf").value, i, o);
    }
  }

  /** No member is left, or several are. */
  lemma {:induction false} ManyKeep(v: Value, i: Value, defs: seq<Entry>, depth: nat, fuel: nat, o: Oracle)
    requires DefsInFragment(defs) && MembersApart(v, defs, fuel) && WithinCap(v, defs, depth) && fuel >= Left(depth)
    requires v.Arr? && (forall m :: 0 <= m < |v.items| ==> InFragment(v.items[m], defs)) && depth <= MAX_DEPTH
    requires Walked(v, defs, depth) == Arr(WalkedItems(v.items, defs, depth + 1))
    requires var kept := Retained(Walked(v, defs, depth).items);
             |kept| != 1 && (|kept| > 1 ==> Holds("anyOf", Arr(kept), i, [], 0, Plainly(o)))
    ensures LooseAny(v, i, defs, fuel, o)
    decreases Left(depth), 8
  {
    hide InFragment, Walked, Holds, Accepts, Loose, Solid, MembersApart, WithinCap, IsBareNull;
    var arr := Walked(v, defs, depth).items;
    var kept := Retained(arr);
    if kept == [] {
      NoneSolid(v, defs, depth, fuel);
    } else {
      SomeKept(kept, i, o);
      var m :| 0 <= m < |kept| && Accepts(kept[m], i, [], 0, Plainly(o));
      assert kept[m] in kept;
      KeptIsMember(arr, kept[m]);
      MemberKeeps(v, kept[m], i, defs, depth, fuel, o);
    }
  }

  lemma AnyIsLoose(e: Entry, i: Value, defs: seq<Entry>, fuel: nat, o: Oracle)
    requires KeywordOf(e.key) in {AnyOf, OneOf} && LooseAny(e.value, i, defs, fuel, o)
    ensures LooseHolds(e.key, e.value, i, defs, fuel, o)
  {
    hide KeywordOf, LooseAny;
  }

  lemma OnlyListsHold(v: Value, i: Value, o: Oracle)
    requires Holds("anyOf", v, i, [], 0, Plainly(o))
    ensures v.Arr?
  {
    KeywordTable();
    hide KeywordOf, Accepts;
  }

  lemma SomeKept(kept: seq<Value>, i: Value, o: Oracle)
    requires Holds("anyOf", Arr(kept), i, [], 0, Plainly(o))
    ensures exists m :: 0 <= m < |kept| && Accepts(kept[m], i, [], 0, Plainly(o))
  {
    KeywordTable();
    hide KeywordOf, Accepts;
    var m :| 0 <= m < |Arr(kept).items| && Accepts(Arr(kept).items[m], i, [], 0, Plainly(o));
    assert kept[m] == Arr(kept).items[m];
  }

  lemma ListReady(es: seq<Entry>, k: nat, defs: seq<Entry>, depth: nat, fuel: nat)
    requires depth <= MAX_DEPTH && Ready(Obj(es), defs, depth, fuel) && k < |es|
    requires Target(es, defs).None? || Target(es, defs).value.None?
    requires KeywordOf(es[k].key) in {AnyOf, OneOf}
    ensures MembersApart(es[k].value, defs, fuel) && WithinCap(es[k].value, defs, depth + 1)
    ensures es[k].value.Arr? ==> forall m :: 0 <= m < |es[k].value.items| ==> InFragment(es[k].value.items[m], defs)
  {
    EntryReady(es, k, defs, fuel);
    PlainWithin(es, k, defs, depth);
    hide InFragment, Apart, WithinCap, KeywordOf, MembersApart;
  }

  lemma NoneSolid(v: Value, defs: seq<Entry>, depth: nat, fuel: nat)
    requires v.Arr? && depth <= MAX_DEPTH && DefsInFragment(defs)
    requires Walked(v, defs, depth) == Arr(WalkedItems(v.items, defs, depth + 1))
    requires Retained(Walked(v, defs, depth).items) == []
    ensures forall m :: 0 <= m < |v.items| ==> !Solid(v.items[m], defs, fuel)
  {
    hide InFragment, Walked, Solid, IsBareNull;
    var w := WalkedItems(v.items, defs, depth + 1);
    forall m | 0 <= m < |v.items| ensures !Solid(v.items[m], defs, fuel) {
      assert w[m] in w;
      if Solid(v.items[m], defs, fuel) {
        SolidStays(v.items[m], defs, depth + 1, fuel);
      }
    }
  }

  lemma {:induction false} MemberKeeps(v: Value, w: Value, i: Value, defs: seq<Entry>, depth: nat, fuel: nat, o: Oracle)
    requires DefsInFragment(defs) && MembersApart(v, defs, fuel) && WithinCap(v, defs, depth) && fuel >= Left(depth)
    requires v.Arr? && (forall m :: 0 <= m < |v.items| ==> InFragment(v.items[m], defs)) && depth <= MAX_DEPTH
    requires Walked(v, defs, depth) == Arr(WalkedItems(v.items, defs, depth + 1)) && w in Walked(v, defs, depth).items
    requires Accepts(w, i, [], 0, Plainly(o))
    ensures LooseAny(v, i, defs, fuel, o)
    decreases Left(depth), 7
  {
    hide InFragment, Walked, Accepts, Loose, Solid, MembersApart, WithinCap;
    var n := MemberOf(v, w, defs, depth);
    MemberReady(v, defs, depth, fuel, n);
    WalkKeeps(v.items[n], i, defs, depth + 1, fuel, o);
  }

  /** The one member that is left: its keywords stand in the object, none of them hidden. */
  lemma {:induction false} AloneKeeps(es: seq<Entry>, k: nat, i: Value, defs: seq<Entry>, depth: nat, fuel: nat,
                                      o: Oracle)
    requires depth <= MAX_DEPTH && Ready(Obj(es), defs, depth, fuel) && k < |es|
    requires Target(es, defs).None? || Target(es, defs).value.None?
    requires KeywordOf(es[k].key) in {AnyOf, OneOf} && es[k].value.Arr? && depth + 1 <= MAX_DEPTH
    requires var out := WalkedEntries(Body(es, defs), defs, depth);
             && AllHold(Lifted(out), i, o) && HasList(out) && |Retained(ListOf(out))| == 1
             && ListOf(out) == WalkedItems(es[k].value.items, defs, depth + 2)
    requires Walked(es[k].value, defs, depth + 1) == Arr(WalkedItems(es[k].value.items, defs, depth + 2))
    ensures LooseAny(es[k].value, i, defs, fuel, o)
    decreases Left(depth), 5
  {
    hide InFragment, Walked, WalkedEntries, Lifted, Accepts, AllHold, Holds, Loose, Apart, WithinCap, Body, KeywordOf;
    hide Get;
    hide MembersApart, Solid, Retained;
    var v, out := es[k].value, WalkedEntries(Body(es, defs), defs, depth);
    ListReady(es, k, defs, depth, fuel);
    var w := Retained(ListOf(out))[0];
    assert w in Retained(ListOf(out));
    KeptIsMember(ListOf(out), w);
    var n := MemberOf(v, w, defs, depth + 1);
    MemberReady(v, defs, depth + 1, fuel, n);
    if v.items[n].Obj? {
      ObjectsWalkToObjects(v.items[n], defs, depth + 2, fuel);
      forall q | 0 <= q < |w.entries| ensures Holds(w.entries[q].key, w.entries[q].value, i, [], 0, Plainly(o)) {
        MemberEntryHolds(es, k, n, q, i, defs, depth, fuel, o);
      }
      AllHoldIsAccepted(w.entries, i, o);
      WalkKeeps(v.items[n], i, defs, depth + 2, fuel, o);
    } else {
      assert Loose(v.items[n], i, defs, fuel, o) by { TrueIsLoose(i, defs, fuel, o); }
    }
  }

  lemma KeptIsMember(arr: seq<Value>, w: Value)
    requires w in Retained(arr)
    ensures w in arr
  {
  }

  lemma TrueIsLoose(i: Value, defs: seq<Entry>, fuel: nat, o: Oracle)
    ensures Loose(Bool(true), i, defs, fuel, o)
  {
  }

  lemma AllHoldIsAccepted(es: seq<Entry>, i: Value, o: Oracle)
    requires forall q :: 0 <= q < |es| ==> Holds(es[q].key, es[q].value, i, [], 0, Plainly(o))
    ensures Accepts(Obj(es), i, [], 0, Plainly(o))
  {
    hide Holds;
    OutAcceptsIsAccepts(es, i, o);
  }

  lemma MemberEntryHolds(es: seq<Entry>, k: nat, n: nat, q: nat, i: Value, defs: seq<Entry>, depth: nat, fuel: nat,
                         o: Oracle)
    requires depth <= MAX_DEPTH && Ready(Obj(es), defs, depth, fuel) && k < |es|
    requires Target(es, defs).None? || Target(es, defs).value.None?
    requires KeywordOf(es[k].key) in {AnyOf, OneOf} && es[k].value.Arr? && n < |es[k].value.items|
    requires var out := WalkedEntries(Body(es, defs), defs, depth);
             && AllHold(Lifted(out), i, o) && HasList(out)
             && ListOf(out) == WalkedItems(es[k].value.items, defs, depth + 2)
             && Retained(ListOf(out)) == [Walked(es[k].value.items[n], defs, depth + 2)]
    requires Walked(es[k].value.items[n], defs, depth + 2).Obj?
             && q < |Walked(es[k].value.items[n], defs, depth + 2).entries|
    ensures var w := Walked(es[k].value.items[n], defs, depth + 2).entries;
            Holds(w[q].key, w[q].value, i, [], 0, Plainly(o))
  {
    hide InFragment, Walked, WalkedEntries, Lifted, AllHold, Holds, Apart, WithinCap, Body, KeywordOf, Get, Retained;
    hide MayHave, OutKey, SchemaClean.Distinct, Clear;
    var member := es[k].value.items[n];
    var w, out := Walked(member, defs, depth + 2).entries, WalkedEntries(Body(es, defs), defs, depth);
    var key := w[q].key;
    WalkedDistinct(member, defs, depth + 2);
    assert w[q] in w;
    SchemaClean.GetDistinct(w, w[q]);
    if key == "nullable" {
      NullableSaysNothing(w[q].value, i, o);
    } else if key == "anyOf" || Get(out, key).None? {
      LiftedKeys(out, key);
      HeldUnder(Lifted(out), key, i, o);
    } else {
      KeyComesFrom(Body(es, defs), defs, depth, key);
      var body := Body(es, defs);
      var j :| 0 <= j < |body| && OutKey(body[j].key) == key && KeywordOf(body[j].key) !in {Meta, Closed};
      BodyEntries(es, defs);
      assert body[j] in es;
      var k2 :| 0 <= k2 < |es| && es[k2] == body[j];
      AnyOfKey(es[k], defs, depth);
      OnlyObjectsWalkToObjects(member, defs, depth + 2);
      KeysKnown(member, key, defs, depth + 2, fuel);
      HiddenIsNote(es, k, k2, n, defs, depth, fuel);
      NoteSaysNothing(key, w[q].value, i, o);
    }
  }

  /** A keyword that hides one of the only member left is a note. */
  lemma HiddenIsNote(es: seq<Entry>, k: nat, k2: nat, n: nat, defs: seq<Entry>, depth: nat, fuel: nat)
    requires depth <= MAX_DEPTH && Ready(Obj(es), defs, depth, fuel) && k < |es| && k2 < |es| && k != k2
    requires Target(es, defs).None? || Target(es, defs).value.None?
    requires KeywordOf(es[k].key) in {AnyOf, OneOf} && es[k].value.Arr? && n < |es[k].value.items|
    requires |Retained(WalkedItems(es[k].value.items, defs, depth + 2))| == 1
    requires MayHave(es[k].value.items[n], OutKey(es[k2].key), defs, fuel) && KeywordOf(es[k2].key) !in {Meta, Closed}
    ensures KeywordOf(OutKey(es[k2].key)) == Note
  {
    hide InFragment, EntryApart, Clear, WithinCap, KeywordOf, MayHave, Solid, OutKey, Walked, Retained;
    var v := es[k].value;
    assert MayStandBeside(es[k2].key, v, defs, fuel);
    if KeywordOf(es[k2].key) == Note {
      NoteKey(es[k2].key);
    } else {
      var m, m2 :| 0 <= m < m2 < |v.items| && Solid(v.items[m], defs, fuel) && Solid(v.items[m2], defs, fuel);
      SolidStays(v.items[m], defs, depth + 2, fuel);
      SolidStays(v.items[m2], defs, depth + 2, fuel);
      TwoRetained(WalkedItems(v.items, defs, depth + 2), m, m2);
    }
  }

  lemma NoteKey(key: string)
    ensures KeywordOf(key) == Note ==> OutKey(key) == key
  {
    hide KeywordOf;
  }

  lemma {:induction false} TwoRetained(arr: seq<Value>, m: nat, m2: nat)
    requires m < m2 < |arr| && !IsBareNull(arr[m]) && !IsBareNull(arr[m2])
    ensures |Retained(arr)| >= 2
    decreases |arr|
  {
    hide IsBareNull;
    var n := |arr| - 1;
    if m2 < n {
      TwoRetained(arr[..n], m, m2);
    } else {
      assert arr[..n][m] == arr[m] && arr[m] in arr[..n];
      assert arr[m] in Retained(arr[..n]);
    }
  }

  lemma NullableSaysNothing(v: Value, i: Value, o: Oracle)
    ensures Holds("nullable", v, i, [], 0, Plainly(o))
  {
    KeywordTable();
    hide KeywordOf;
  }

  lemma NoteSaysNothing(key: string, v: Value, i: Value, o: Oracle)
    requires KeywordOf(key) == Note
    ensures Holds(key, v, i, [], 0, Plainly(o))
  {
    hide KeywordOf;
  }

  // ---------------------------------------------------------------------------------------------
  // The theorem
  // ---------------------------------------------------------------------------------------------

  /** Stripping the root takes away only what says nothing. */
  lemma StrippedHeld(es: seq<Entry>, i: Value, o: Oracle)
    requires OutAccepts(Stripped(es), i, o)
    ensures OutAccepts(es, i, o)
  {
    hide Holds, Get, Remove;
    var r := Stripped(es);
    StrippedKeys(es);
    if !TakesNull(r, i) {
      forall j | 0 <= j < |es| ensures Holds(es[j].key, es[j].value, i, [], 0, Plainly(o)) {
        assert es[j] in es;
        if es[j] in r {
          var k :| 0 <= k < |r| && r[k] == es[j];
        } else {
          MetaHolds(es[j], i, o);
        }
      }
    }
  }

  lemma StrippedKeys(es: seq<Entry>)
    ensures Get(Stripped(es), "nullable") == Get(es, "nullable")
    ensures forall e <- es ::
      e.key !in {"$schema", "$defs", "definitions", "$id", "$comment"} ==> e in Stripped(es)
  {
    hide Get;
    var r1 := Remove(es, "$schema");
    var r2 := Remove(r1, "$defs");
    var r3 := Remove(r2, "definitions");
    var r4 := Remove(r3, "$id");
    Others(es, "$schema");
    Others(r1, "$defs");
    Others(r2, "definitions");
    Others(r3, "$id");
    Others(r4, "$comment");
    hide Remove;
  }

  lemma Others(es: seq<Entry>, k: string)
    requires k != "nullable"
    ensures Get(Remove(es, k), "nullable") == Get(es, "nullable")
    ensures forall e <- es :: e.key != k ==> e in Remove(es, k)
  {
    GetRemoveOther(es, k, "nullable");
    forall e <- es | e.key != k ensures e in Remove(es, k) {
      var j :| 0 <= j < |es| && es[j] == e;
    }
  }

  lemma MetaHolds(e: Entry, i: Value, o: Oracle)
    requires e.key in {"$schema", "$defs", "definitions", "$id", "$comment"}
    ensures Holds(e.key, e.value, i, [], 0, Plainly(o))
  {
    KeywordMeta();
    hide KeywordOf;
  }

  /** What sanitising keeps.  For every schema of the fragment whose keywords do not get in each other's way, every
      instance the output accepts is accepted by the input in the loose reading.  With `SanitizeRelaxes` and
      `AcceptsIsLoose` the output stands between the two readings of the input. */
  lemma SanitizeKeeps(schema: Value, i: Value, o: Oracle)
    requires var defs := Definitions(schema);
             InFragment(schema, defs) && DefsInFragment(defs) && WithinCap(schema, defs, 0)
                 && Apart(schema, defs, MAX_DEPTH + 1)
    requires Accepts(Sanitized(schema), i, [], 0, Plainly(o))
    ensures Loose(schema, i, Definitions(schema), MAX_DEPTH + 1, o)
  {
    hide InFragment, Apart, Loose, Holds, Walked;
    var defs := Definitions(schema);
    var out := Walked(schema, defs, 0);
    if out.Obj? {
      OutAcceptsIsAccepts(Stripped(out.entries), i, o);
      StrippedHeld(out.entries, i, o);
      OutAcceptsIsAccepts(out.entries, i, o);
    }
    WalkKeeps(schema, i, defs, 0, MAX_DEPTH + 1, o);
  }
}
