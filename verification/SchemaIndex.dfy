/**
 The schema index of the Swift generator: schemas are recognised by object identity or by a signature
 that ignores the order of object keys; a signature shared by two registrations names nothing.
 */
module SchemaIndex {
  import opened Text
  import opened OrderedMap
  import opened Sorting
  import opened JsonText

  /** `stableJson`: the same value with the keys of every object sorted. */
  function StableJson(j: Json): Json
    decreases j, 1
  {
    match j
    case Scalar(_) => j
    case Text(_) => j
    case Arr(items) => Arr(seq(|items|, i requires 0 <= i < |items| => StableJson(items[i])))
    case Obj(fields) =>
      Obj(SortByKey(StableFields(fields)))
  }

  function StableFields(fields: Entries<Json>): Entries<Json>
    decreases Obj(fields), 0
  {
    seq(|fields|, i requires 0 <= i < |fields| => (fields[i].0, StableJson(fields[i].1)))
  }

  type Signature = string

  /** `schemaSignature`: the text of the stable value. */
  function SchemaSignature(schema: Json): Signature {
    Print(StableJson(schema))
  }

  /** Equal up to the order of object keys. */
  ghost predicate Same(a: Json, b: Json)
    decreases a
  {
    match a
    case Scalar(_) => a == b
    case Text(_) => a == b
    case Arr(items) =>
      b.Arr? && |items| == |b.items| && forall i :: 0 <= i < |items| ==> Same(items[i], b.items[i])
    case Obj(fields) =>
      && b.Obj? && Keys(fields) == Keys(b.fields)
      && forall i, j :: 0 <= i < |fields| && 0 <= j < |b.fields| && fields[i].0 == b.fields[j].0 ==>
           Same(fields[i].1, b.fields[j].1)
  }

  // ---- signatures ----

  lemma StableFieldsKeys(fields: Entries<Json>)
    requires Distinct(fields)
    ensures Distinct(StableFields(fields)) && Keys(StableFields(fields)) == Keys(fields)
  {
    var stable := StableFields(fields);
    assert forall i :: 0 <= i < |fields| ==> stable[i].0 == fields[i].0;
    forall k | k in Keys(fields) ensures k in Keys(stable) {
      var i :| 0 <= i < |fields| && fields[i].0 == k;
      assert stable[i].0 == k;
    }
  }

  /** Sorted objects are equal exactly when their associations are. */
  lemma SortedEqual(a: Entries<Json>, b: Entries<Json>)
    requires Distinct(a) && Distinct(b)
    ensures SortByKey(a) == SortByKey(b) <==> SameMap(a, b)
  {
    SortKeeps(a);
    SortKeeps(b);
    if SameMap(a, b) { SortCanonical(a, b); }
  }

  ghost predicate SameFields(a: Entries<Json>, b: Entries<Json>) {
    Keys(a) == Keys(b) &&
    forall i, j :: 0 <= i < |a| && 0 <= j < |b| && a[i].0 == b[j].0 ==> a[i].1 == b[j].1
  }

  lemma SameFieldsIsSameMap(a: Entries<Json>, b: Entries<Json>)
    requires Distinct(a) && Distinct(b)
    ensures SameMap(a, b) <==> SameFields(a, b)
  {
    if SameMap(a, b) {
      forall k ensures k in Keys(a) <==> k in Keys(b) {
        GetKeys(a, k);
        GetKeys(b, k);
        assert Get(a, k) == Get(b, k);
      }
      forall i, j | 0 <= i < |a| && 0 <= j < |b| && a[i].0 == b[j].0 ensures a[i].1 == b[j].1 {
        GetAt(a, i);
        GetAt(b, j);
        assert Get(a, a[i].0) == Get(b, a[i].0);
      }
    }
    if SameFields(a, b) {
      forall k ensures Get(a, k) == Get(b, k) {
        GetKeys(a, k);
        GetKeys(b, k);
        if k in Keys(a) {
          var i :| 0 <= i < |a| && a[i].0 == k;
          var j :| 0 <= j < |b| && b[j].0 == k;
          GetAt(a, i);
          GetAt(b, j);
        }
      }
    }
  }

  /** Two schemas have the same stable value exactly when they are equal up to object key order. */
  lemma {:induction false} StableIgnoresKeyOrder(a: Json, b: Json)
    requires WellFormed(a) && WellFormed(b)
    ensures StableJson(a) == StableJson(b) <==> Same(a, b)
    decreases a
  {
    match (a, b)
    case (Arr(xs), Arr(ys)) =>
      if |xs| == |ys| {
        forall i | 0 <= i < |xs| ensures StableJson(xs[i]) == StableJson(ys[i]) <==> Same(xs[i], ys[i]) {
          StableIgnoresKeyOrder(xs[i], ys[i]);
        }
        ArrayItems(xs, ys);
      } else {
        assert |StableJson(a).items| == |xs| && |StableJson(b).items| == |ys|;
      }
    case (Obj(xs), Obj(ys)) =>
      forall i, j | 0 <= i < |xs| && 0 <= j < |ys|
        ensures StableJson(xs[i].1) == StableJson(ys[j].1) <==> Same(xs[i].1, ys[j].1)
      {
        StableIgnoresKeyOrder(xs[i].1, ys[j].1);
      }
      ObjectFields(xs, ys);
    case _ =>
  }

  lemma ArrayItems(xs: seq<Json>, ys: seq<Json>)
    requires |xs| == |ys|
    ensures StableJson(Arr(xs)) == StableJson(Arr(ys)) <==>
      forall i :: 0 <= i < |xs| ==> StableJson(xs[i]) == StableJson(ys[i])
  {
    var a, b := StableJson(Arr(xs)).items, StableJson(Arr(ys)).items;
    if a == b {
      forall i | 0 <= i < |xs| ensures StableJson(xs[i]) == StableJson(ys[i]) { assert a[i] == b[i]; }
    }
  }

  lemma ObjectFields(xs: Entries<Json>, ys: Entries<Json>)
    requires Distinct(xs) && Distinct(ys)
    ensures StableJson(Obj(xs)) == StableJson(Obj(ys)) <==>
      Keys(xs) == Keys(ys) &&
      forall i, j :: 0 <= i < |xs| && 0 <= j < |ys| && xs[i].0 == ys[j].0 ==> StableJson(xs[i].1) == StableJson(ys[j].1)
  {
    var a, b := StableFields(xs), StableFields(ys);
    StableFieldsKeys(xs);
    StableFieldsKeys(ys);
    assert StableJson(Obj(xs)) == Obj(SortByKey(a)) && StableJson(Obj(ys)) == Obj(SortByKey(b));
    SortedEqual(a, b);
    SameFieldsIsSameMap(a, b);
    if SameFields(a, b) {
      forall i, j | 0 <= i < |xs| && 0 <= j < |ys| && xs[i].0 == ys[j].0
        ensures StableJson(xs[i].1) == StableJson(ys[j].1)
      {
        assert a[i].0 == b[j].0;
      }
    }
  }

  /** An entry of a sorted list was an entry before. */
  lemma SortedEntry(m: Entries<Json>, i: nat)
    requires Distinct(m) && i < |SortByKey(m)|
    ensures Distinct(SortByKey(m)) && SortByKey(m)[i] in m
  {
    var r := SortByKey(m);
    SortKeeps(m);
    SortedDistinct(r);
    GetAt(r, i);
    assert Get(r, r[i].0) == Get(m, r[i].0);
    GetKeys(m, r[i].0);
    var j :| 0 <= j < |m| && m[j].0 == r[i].0;
    GetAt(m, j);
    assert m[j] == r[i];
  }

  /** Stable values are well-formed again. */
  lemma {:induction false} StableWellFormed(j: Json)
    requires WellFormed(j)
    ensures WellFormed(StableJson(j))
    decreases j
  {
    match j
    case Scalar(_) =>
    case Text(_) =>
    case Arr(items) =>
      forall i | 0 <= i < |items| ensures WellFormed(StableJson(items[i])) { StableWellFormed(items[i]); }
    case Obj(fields) =>
      var stable := StableFields(fields);
      StableFieldsKeys(fields);
      forall i | 0 <= i < |fields| ensures WellFormed(stable[i].1) { StableWellFormed(fields[i].1); }
      forall i | 0 <= i < |SortByKey(stable)| ensures WellFormed(SortByKey(stable)[i].1) { SortedEntry(stable, i); }
      SortedDistinctFields(stable);
  }

  lemma SortedDistinctFields(m: Entries<Json>)
    requires Distinct(m)
    ensures Distinct(SortByKey(m))
  {
    SortKeeps(m);
    SortedDistinct(SortByKey(m));
  }

  /** Two schemas share a signature, which is a text, exactly when they are equal up to object key order. */
  lemma SignatureIgnoresKeyOrder(a: Json, b: Json)
    requires WellFormed(a) && WellFormed(b)
    ensures SchemaSignature(a) == SchemaSignature(b) <==> Same(a, b)
  {
    StableWellFormed(a);
    StableWellFormed(b);
    PrintInjective(StableJson(a), StableJson(b));
    StableIgnoresKeyOrder(a, b);
  }

  // ---- the index ----

  /** One call of `registerNamedSchema`; `id` is the identity of the schema object. */
  datatype Registration = Registration(name: string, id: nat, schema: Json)

  datatype Index = Index(nameByObject: map<nat, string>, nameBySignature: map<Signature, string>, duplicates: set<Signature>)

  function Register(x: Index, r: Registration): Index {
    var x := x.(nameByObject := x.nameByObject[r.id := r.name]);
    var signature := SchemaSignature(r.schema);
    if signature in x.duplicates then x
    else if signature in x.nameBySignature then
      x.(nameBySignature := x.nameBySignature - {signature}, duplicates := x.duplicates + {signature})
    else x.(nameBySignature := x.nameBySignature[signature := r.name])
  }

  function RegisterAll(regs: seq<Registration>): Index {
    if regs == [] then Index(map[], map[], {})
    else Register(RegisterAll(regs[..|regs| - 1]), regs[|regs| - 1])
  }

  class Registry {
    var schemaNameByObject: map<nat, string>
    var schemaNameBySignature: map<Signature, string>
    var duplicateSchemaSignatures: set<Signature>

    constructor ()
      ensures View() == RegisterAll([])
    {
      schemaNameByObject, schemaNameBySignature, duplicateSchemaSignatures := map[], map[], {};
    }

    function View(): Index
      reads this
    {
      Index(schemaNameByObject, schemaNameBySignature, duplicateSchemaSignatures)
    }

    method RegisterNamedSchema(name: string, id: nat, schema: Json)
      modifies this
      ensures View() == Register(old(View()), Registration(name, id, schema))
    {
      schemaNameByObject := schemaNameByObject[id := name];
      var signature := SchemaSignature(schema);
      if signature in duplicateSchemaSignatures {
        return;
      }
      if signature in schemaNameBySignature {
        schemaNameBySignature := schemaNameBySignature - {signature};
        duplicateSchemaSignatures := duplicateSchemaSignatures + {signature};
        return;
      }
      schemaNameBySignature := schemaNameBySignature[signature := name];
    }
  }

  /** `namedSchema`: by identity first, structurally only where that is allowed. */
  function NamedSchema(x: Index, id: nat, schema: Json, allowStructuralFallback: bool): Option<string> {
    if id in x.nameByObject then Some(x.nameByObject[id])
    else if allowStructuralFallback && SchemaSignature(schema) in x.nameBySignature then
      Some(x.nameBySignature[SchemaSignature(schema)])
    else None
  }

  /** The places of the registrations whose schema has the signature. */
  ghost function Places(regs: seq<Registration>, s: Signature): set<nat> {
    set i | 0 <= i < |regs| && SchemaSignature(regs[i].schema) == s
  }

  lemma PlacesAppend(regs: seq<Registration>, r: Registration, s: Signature)
    ensures Places(regs + [r], s) == Places(regs, s) + (if SchemaSignature(r.schema) == s then {|regs|} else {})
  {
  }

  lemma PlacesCount(regs: seq<Registration>, r: Registration, s: Signature)
    ensures |Places(regs + [r], s)| == |Places(regs, s)| + (if SchemaSignature(r.schema) == s then 1 else 0)
    ensures forall i :: i in Places(regs, s) ==> i < |regs| && (regs + [r])[i] == regs[i]
  {
    PlacesAppend(regs, r, s);
    assert |regs| !in Places(regs, s);
  }

  /**
   After any registrations a signature names something exactly when one registration has it, and then it
   names that one; the duplicates are exactly the signatures seen twice or more.
   */
  lemma {:induction false} IndexIsExact(regs: seq<Registration>, s: Signature)
    ensures var x := RegisterAll(regs);
      && (s in x.nameBySignature <==> |Places(regs, s)| == 1)
      && (s in x.duplicates <==> |Places(regs, s)| >= 2)
      && (forall i :: s in x.nameBySignature && i in Places(regs, s) ==> x.nameBySignature[s] == regs[i].name)
    decreases |regs|
  {
    if regs == [] {
      assert Places(regs, s) == {};
    } else {
      var n := |regs| - 1;
      IndexIsExact(regs[..n], s);
      assert regs == regs[..n] + [regs[n]];
      PlacesCount(regs[..n], regs[n], s);
      PlacesAppend(regs[..n], regs[n], s);
      if |Places(regs[..n], s)| == 0 { assert Places(regs[..n], s) == {}; }
    }
  }

  /** The registrations of schemas equal to one up to key order. */
  ghost function Equals(regs: seq<Registration>, schema: Json): set<nat> {
    set i | 0 <= i < |regs| && Same(regs[i].schema, schema)
  }

  /** An unregistered object is named structurally exactly when one registered schema equals it, by that one's name. */
  lemma StructuralNameIsUnique(regs: seq<Registration>, id: nat, schema: Json)
    requires WellFormed(schema) && forall i :: 0 <= i < |regs| ==> WellFormed(regs[i].schema) && regs[i].id != id
    ensures var name := NamedSchema(RegisterAll(regs), id, schema, true);
      && (name.Some? <==> |Equals(regs, schema)| == 1)
      && (forall i :: name.Some? && i in Equals(regs, schema) ==> name.value == regs[i].name)
  {
    forall i | 0 <= i < |regs| ensures SchemaSignature(regs[i].schema) == SchemaSignature(schema) <==> Same(regs[i].schema, schema) {
      SignatureIgnoresKeyOrder(regs[i].schema, schema);
    }
    assert Equals(regs, schema) == Places(regs, SchemaSignature(schema));
    IndexIsExact(regs, SchemaSignature(schema));
    ObjectsRegistered(regs, id);
  }

  lemma {:induction false} ObjectsRegistered(regs: seq<Registration>, id: nat)
    ensures id in RegisterAll(regs).nameByObject <==> exists i :: 0 <= i < |regs| && regs[i].id == id
    decreases |regs|
  {
    if regs != [] {
      var n := |regs| - 1;
      ObjectsRegistered(regs[..n], id);
      if id in RegisterAll(regs[..n]).nameByObject {
        var i :| 0 <= i < n && regs[..n][i].id == id;
        assert regs[i].id == id;
      }
      if exists i :: 0 <= i < |regs| && regs[i].id == id {
        var i :| 0 <= i < |regs| && regs[i].id == id;
        if i < n { assert regs[..n][i].id == id; }
      }
    }
  }

  /** The last registration of the object. */
  ghost predicate LastOf(regs: seq<Registration>, id: nat, i: int) {
    0 <= i < |regs| && regs[i].id == id && forall j :: i < j < |regs| ==> regs[j].id != id
  }

  lemma {:induction false} NameOfObject(regs: seq<Registration>, id: nat, i: int)
    requires LastOf(regs, id, i)
    ensures id in RegisterAll(regs).nameByObject && RegisterAll(regs).nameByObject[id] == regs[i].name
    decreases |regs|
  {
    var n := |regs| - 1;
    if i < n { NameOfObject(regs[..n], id, i); }
  }

  /**
   A registered object goes by the name of its last registration, whatever its schema and whether structural names
   are allowed; an unregistered one has no name where they are not.
   */
  lemma NameByIdentity(regs: seq<Registration>, id: nat, schema: Json, allow: bool)
    ensures forall i :: LastOf(regs, id, i) ==> NamedSchema(RegisterAll(regs), id, schema, allow) == Some(regs[i].name)
    ensures (forall i :: 0 <= i < |regs| ==> regs[i].id != id) ==> NamedSchema(RegisterAll(regs), id, schema, false) == None
  {
    forall i | LastOf(regs, id, i) ensures NamedSchema(RegisterAll(regs), id, schema, allow) == Some(regs[i].name) {
      NameOfObject(regs, id, i);
    }
    ObjectsRegistered(regs, id);
  }
}
