/**
 Locale modules as nested string tables, `flattenTranslations` into dotted keys, and `setNestedValue`,
 which rebuilds a table from dotted keys.  An object is a list of entries in insertion order.
 */
module LocaleTree {
  import opened Text
  import opened OrderedMap

  datatype Tree = Leaf(text: string) | Node(kids: Forest)
  datatype Forest = Nil | Cons(key: string, value: Tree, rest: Forest)

  const DOT := '.'

  type Path = p: seq<string> | |p| > 0 witness [""]
  type Leaves = seq<(Path, string)>

  function Names(f: Forest): set<string> {
    match f
    case Nil => {}
    case Cons(k, _, rest) => {k} + Names(rest)
  }

  /** Object keys are distinct at every level. */
  predicate WellFormed(f: Forest) {
    match f
    case Nil => true
    case Cons(k, t, rest) => k !in Names(rest) && (t.Node? ==> WellFormed(t.kids)) && WellFormed(rest)
  }

  function Find(f: Forest, k: string): Option<Tree> {
    match f
    case Nil => None
    case Cons(key, t, rest) => if key == k then Some(t) else Find(rest, k)
  }

  /** `object[k] = t`: in place when the key is present, at the end otherwise. */
  function Assign(f: Forest, k: string, t: Tree): Forest {
    match f
    case Nil => Cons(k, t, Nil)
    case Cons(key, present, rest) => if key == k then Cons(k, t, rest) else Cons(key, present, Assign(rest, k, t))
  }

  function FullKey(prefix: string, key: string): string {
    if prefix != "" then prefix + [DOT] + key else key
  }

  /** The `out.set` calls of `flattenTranslations(f, prefix, out)`, in order. */
  function Emit(f: Forest, prefix: string): Entries<string> {
    match f
    case Nil => []
    case Cons(k, Leaf(text), rest) => [(FullKey(prefix, k), text)] + Emit(rest, prefix)
    case Cons(k, Node(kids), rest) => Emit(kids, FullKey(prefix, k)) + Emit(rest, prefix)
  }

  function Flatten(f: Forest): Entries<string> {
    PutAll([], Emit(f, ""))
  }

  method FlattenTranslations(value: Forest, prefix: string, out: Entries<string>) returns (r: Entries<string>)
    ensures r == PutAll(out, Emit(value, prefix))
    decreases value
  {
    r := out;
    var rest := value;
    while rest.Cons?
      invariant rest == value || rest < value
      invariant PutAll(r, Emit(rest, prefix)) == PutAll(out, Emit(value, prefix))
      decreases rest
    {
      var fullKey := FullKey(prefix, rest.key);
      match rest.value {
        case Leaf(text) =>
          assert Emit(rest, prefix)[1..] == Emit(rest.rest, prefix);
          r := Put(r, fullKey, text);
        case Node(kids) =>
          PutAllAppend(r, Emit(kids, fullKey), Emit(rest.rest, prefix));
          r := FlattenTranslations(kids, fullKey, r);
      }
      rest := rest.rest;
    }
  }

  /** The walk of `setNestedValue`: a missing or string step is replaced by a new table. */
  function SetPath(f: Forest, path: Path, v: string): Forest
    decreases |path|
  {
    if |path| == 1 then Assign(f, path[0], Leaf(v))
    else
      var next := Find(f, path[0]);
      var kids := if next.Some? && next.value.Node? then next.value.kids else Nil;
      Assign(f, path[0], Node(SetPath(kids, path[1..], v)))
  }

  function SetNestedValue(f: Forest, dottedKey: string, v: string): Forest {
    SetPath(f, Split(dottedKey, DOT), v)
  }

  /** `setNestedValue` for every entry of a flat map, in order, into an empty table. */
  function Rebuild(m: Entries<string>): Forest
    decreases |m|
  {
    if m == [] then Nil
    else SetNestedValue(Rebuild(m[..|m| - 1]), m[|m| - 1].0, m[|m| - 1].1)
  }

  // ---- which tables and which flat maps survive ----

  /** Keys contain no dot and no nested table is empty. */
  predicate CleanKeys(f: Forest) {
    match f
    case Nil => true
    case Cons(k, t, rest) =>
      DOT !in k && (t.Node? ==> t.kids.Cons? && CleanKeys(t.kids)) && CleanKeys(rest)
  }

  predicate TableAt(f: Forest, k: string) {
    Find(f, k).Some? && Find(f, k).value.Node?
  }

  /** Additionally the empty key does not hold a table at the top level, where its name would vanish. */
  predicate Clean(f: Forest) {
    CleanKeys(f) && !TableAt(f, "")
  }

  predicate LeadingDot(k: string) {
    k != "" && k[0] == DOT
  }

  /** No dotted key runs through another one, and none starts with a dot. */
  ghost predicate Rebuildable(keys: set<string>) {
    && (forall k :: k in keys ==> !LeadingDot(k))
    && (forall a, b :: a in keys && b in keys ==> !(Split(a, DOT) < Split(b, DOT)))
  }

  // ---- leaves by path ----

  function Under(k: string, leaves: Leaves): Leaves {
    if leaves == [] then []
    else [([k] + leaves[0].0, leaves[0].1)] + Under(k, leaves[1..])
  }

  function LeavesOf(f: Forest): Leaves {
    match f
    case Nil => []
    case Cons(k, Leaf(text), rest) => [([k], text)] + LeavesOf(rest)
    case Cons(k, Node(kids), rest) => Under(k, LeavesOf(kids)) + LeavesOf(rest)
  }

  function SetLeaves(f: Forest, leaves: Leaves): Forest
    decreases |leaves|
  {
    if leaves == [] then f else SetLeaves(SetPath(f, leaves[0].0, leaves[0].1), leaves[1..])
  }

  function Lookup(f: Forest, path: Path): Option<string>
    decreases |path|
  {
    match Find(f, path[0])
    case None => None
    case Some(Leaf(text)) => if |path| == 1 then Some(text) else None
    case Some(Node(kids)) => if |path| == 1 then None else Lookup(kids, path[1..])
  }

  function Append(f: Forest, g: Forest): Forest {
    match f
    case Nil => g
    case Cons(k, t, rest) => Cons(k, t, Append(rest, g))
  }

  lemma {:induction false} FindNames(f: Forest, k: string)
    ensures Find(f, k).Some? <==> k in Names(f)
  {
    if f.Cons? { FindNames(f.rest, k); }
  }

  lemma {:induction false} AppendLast(f: Forest, k: string, t: Tree, u: Tree)
    requires k !in Names(f)
    ensures Assign(f, k, t) == Append(f, Cons(k, t, Nil))
    ensures Find(f, k) == None && Find(Append(f, Cons(k, t, Nil)), k) == Some(t)
    ensures Assign(Append(f, Cons(k, t, Nil)), k, u) == Append(f, Cons(k, u, Nil))
  {
    if f.Cons? { AppendLast(f.rest, k, t, u); }
  }

  lemma {:induction false} AppendAssoc(f: Forest, g: Forest, h: Forest)
    ensures Append(Append(f, g), h) == Append(f, Append(g, h))
    ensures Names(Append(f, g)) == Names(f) + Names(g)
  {
    if f.Cons? { AppendAssoc(f.rest, g, h); }
  }

  lemma {:induction false} SetLeavesAppend(f: Forest, a: Leaves, b: Leaves)
    ensures SetLeaves(f, a + b) == SetLeaves(SetLeaves(f, a), b)
    decreases |a|
  {
    if a == [] {
      assert a + b == b;
    } else {
      assert (a + b)[1..] == a[1..] + b;
      SetLeavesAppend(SetPath(f, a[0].0, a[0].1), a[1..], b);
    }
  }

  /** Setting leaves below a last entry only changes that entry. */
  lemma {:induction false} SetLeavesUnder(f: Forest, k: string, g: Forest, leaves: Leaves)
    requires k !in Names(f)
    ensures SetLeaves(Append(f, Cons(k, Node(g), Nil)), Under(k, leaves))
         == Append(f, Cons(k, Node(SetLeaves(g, leaves)), Nil))
    decreases |leaves|
  {
    if leaves != [] {
      var p, v := leaves[0].0, leaves[0].1;
      var g' := SetPath(g, p, v);
      AppendLast(f, k, Node(g), Node(g'));
      assert ([k] + p)[1..] == p;
      assert SetPath(Append(f, Cons(k, Node(g), Nil)), [k] + p, v) == Append(f, Cons(k, Node(g'), Nil));
      SetLeavesUnder(f, k, g', leaves[1..]);
      assert Under(k, leaves)[1..] == Under(k, leaves[1..]);
    }
  }

  lemma {:induction false} LeavesNonEmpty(f: Forest)
    requires f.Cons? && CleanKeys(f)
    ensures LeavesOf(f) != []
  {
    if f.value.Node? {
      LeavesNonEmpty(f.value.kids);
    }
  }

  /** Replaying the leaves of a table after disjoint entries appends that very table, order included. */
  lemma {:induction false} Replay(acc: Forest, f: Forest)
    requires WellFormed(f) && CleanKeys(f) && Names(acc) !! Names(f)
    ensures SetLeaves(acc, LeavesOf(f)) == Append(acc, f)
    decreases f
  {
    match f
    case Nil =>
      AppendNil(acc);
    case Cons(k, t, rest) =>
      var last := Cons(k, t, Nil);
      AppendLast(acc, k, t, t);
      AppendAssoc(acc, last, rest);
      Replay(Append(acc, last), rest);
      match t {
        case Leaf(text) =>
          SetLeavesAppend(acc, [([k], text)], LeavesOf(rest));
          assert SetLeaves(acc, [([k], text)]) == SetPath(acc, [k], text);
        case Node(kids) =>
          var leaves := LeavesOf(kids);
          LeavesNonEmpty(kids);
          SetLeavesAppend(acc, Under(k, leaves), LeavesOf(rest));
          var p, v := leaves[0].0, leaves[0].1;
          var g := SetPath(Nil, p, v);
          AppendLast(acc, k, Node(g), Node(g));
          assert ([k] + p)[1..] == p;
          assert Under(k, leaves)[1..] == Under(k, leaves[1..]);
          assert SetLeaves(acc, Under(k, leaves)) == SetLeaves(Append(acc, Cons(k, Node(g), Nil)), Under(k, leaves[1..]));
          SetLeavesUnder(acc, k, g, leaves[1..]);
          assert SetLeaves(g, leaves[1..]) == SetLeaves(Nil, leaves);
          Replay(Nil, kids);
      }
  }

  lemma {:induction false} AppendNil(f: Forest)
    ensures Append(f, Nil) == f
  {
    if f.Cons? { AppendNil(f.rest); }
  }

  // ---- dotted keys and paths ----

  ghost predicate DotFree(leaves: Leaves) {
    forall i :: 0 <= i < |leaves| ==> AllFree(leaves[i].0, DOT)
  }

  /** The dotted entry of every leaf, below a non-empty prefix or at the top. */
  function Dotted(prefix: string, leaves: Leaves): Entries<string> {
    if leaves == [] then []
    else [(FullKey(prefix, Join(leaves[0].0, DOT)), leaves[0].1)] + Dotted(prefix, leaves[1..])
  }

  lemma {:induction false} DottedAt(prefix: string, leaves: Leaves)
    ensures |Dotted(prefix, leaves)| == |leaves|
    ensures forall i :: 0 <= i < |leaves| ==>
      Dotted(prefix, leaves)[i] == (FullKey(prefix, Join(leaves[i].0, DOT)), leaves[i].1)
  {
    if leaves != [] {
      DottedAt(prefix, leaves[1..]);
      forall i | 0 <= i < |leaves|
        ensures Dotted(prefix, leaves)[i] == (FullKey(prefix, Join(leaves[i].0, DOT)), leaves[i].1)
      {
        if i > 0 { assert leaves[i] == leaves[1..][i - 1]; }
      }
    }
  }

  lemma {:induction false} DottedAppend(prefix: string, a: Leaves, b: Leaves)
    ensures Dotted(prefix, a + b) == Dotted(prefix, a) + Dotted(prefix, b)
    decreases |a|
  {
    if a == [] {
      assert a + b == b;
    } else {
      assert (a + b)[1..] == a[1..] + b;
      DottedAppend(prefix, a[1..], b);
    }
  }

  lemma {:induction false} DottedUnder(prefix: string, k: string, leaves: Leaves)
    requires FullKey(prefix, k) != ""
    ensures Dotted(prefix, Under(k, leaves)) == Dotted(FullKey(prefix, k), leaves)
  {
    if leaves != [] {
      var p := leaves[0].0;
      assert ([k] + p)[1..] == p;
      assert Join([k] + p, DOT) == k + [DOT] + Join(p, DOT);
      DottedUnder(prefix, k, leaves[1..]);
      assert Under(k, leaves)[1..] == Under(k, leaves[1..]);
      if prefix != "" {
        assert prefix + [DOT] + (k + [DOT] + Join(p, DOT)) == prefix + [DOT] + k + [DOT] + Join(p, DOT);
      }
    }
  }

  lemma {:induction false} EmitDotted(f: Forest, prefix: string)
    requires WellFormed(f)
    requires prefix == "" ==> !TableAt(f, "")
    ensures Emit(f, prefix) == Dotted(prefix, LeavesOf(f))
    decreases f
  {
    match f
    case Nil =>
    case Cons(k, t, rest) =>
      FindNames(rest, "");
      EmitDotted(rest, prefix);
      match t {
        case Leaf(text) =>
          DottedAppend(prefix, [([k], text)], LeavesOf(rest));
        case Node(kids) =>
          var full := FullKey(prefix, k);
          assert full != "";
          EmitDotted(kids, full);
          DottedUnder(prefix, k, LeavesOf(kids));
          DottedAppend(prefix, Under(k, LeavesOf(kids)), LeavesOf(rest));
      }
  }

  lemma {:induction false} UnderAt(k: string, leaves: Leaves)
    ensures |Under(k, leaves)| == |leaves|
    ensures forall i :: 0 <= i < |leaves| ==> Under(k, leaves)[i] == ([k] + leaves[i].0, leaves[i].1)
  {
    if leaves != [] {
      UnderAt(k, leaves[1..]);
      forall i | 0 <= i < |leaves| ensures Under(k, leaves)[i] == ([k] + leaves[i].0, leaves[i].1) {
        if i > 0 { assert leaves[i] == leaves[1..][i - 1]; }
      }
    }
  }

  function Head(k: string, t: Tree): Leaves {
    match t
    case Leaf(text) => [([k], text)]
    case Node(kids) => Under(k, LeavesOf(kids))
  }

  /** The leaves of a table are the paths `Lookup` finds ... */
  lemma {:induction false} LeafFound(f: Forest, i: nat)
    requires WellFormed(f) && i < |LeavesOf(f)|
    ensures Lookup(f, LeavesOf(f)[i].0) == Some(LeavesOf(f)[i].1)
    ensures LeavesOf(f)[i].0[0] in Names(f)
    decreases f
  {
    var Cons(k, t, rest) := f;
    var head := Head(k, t);
    if i >= |head| {
      LeafFound(rest, i - |head|);
    } else if t.Node? {
      UnderAt(k, LeavesOf(t.kids));
      LeafFound(t.kids, i);
      assert head[i].0[1..] == LeavesOf(t.kids)[i].0;
    }
  }

  lemma UnderListed(k: string, leaves: Leaves, p: Path, text: string)
    requires |p| > 1 && p[0] == k && (p[1..], text) in leaves
    ensures (p, text) in Under(k, leaves)
  {
    var i :| 0 <= i < |leaves| && leaves[i] == (p[1..], text);
    UnderAt(k, leaves);
    assert [k] + p[1..] == p;
    assert Under(k, leaves)[i] == (p, text);
  }

  /** ... all of them ... */
  lemma {:induction false} LeafListed(f: Forest, p: Path)
    requires Lookup(f, p).Some?
    ensures (p, Lookup(f, p).value) in LeavesOf(f)
    decreases f
  {
    var Cons(k, t, rest) := f;
    if k != p[0] {
      LeafListed(rest, p);
    } else if t.Node? {
      LeafListed(t.kids, p[1..]);
      UnderListed(k, LeavesOf(t.kids), p, Lookup(f, p).value);
    } else {
      assert p == [k];
      assert Head(k, t)[0] == (p, Lookup(f, p).value);
    }
  }

  /** ... each once. */
  lemma {:induction false} LeafUnique(f: Forest, i: nat, j: nat)
    requires WellFormed(f) && i < j < |LeavesOf(f)|
    ensures LeavesOf(f)[i].0 != LeavesOf(f)[j].0
    decreases f
  {
    var Cons(k, t, rest) := f;
    var head := Head(k, t);
    if i >= |head| {
      LeafUnique(rest, i - |head|, j - |head|);
    } else if j >= |head| {
      LeafFound(rest, j - |head|);
      if t.Node? { UnderAt(k, LeavesOf(t.kids)); }
    } else if t.Node? {
      UnderAt(k, LeavesOf(t.kids));
      LeafUnique(t.kids, i, j);
      assert head[i].0[1..] == LeavesOf(t.kids)[i].0 && head[j].0[1..] == LeavesOf(t.kids)[j].0;
    }
  }

  lemma {:induction false} LeavesDotFree(f: Forest)
    requires CleanKeys(f)
    ensures DotFree(LeavesOf(f))
    decreases f
  {
    match f
    case Nil =>
    case Cons(k, t, rest) =>
      LeavesDotFree(rest);
      if t.Node? {
        LeavesDotFree(t.kids);
        UnderAt(k, LeavesOf(t.kids));
      }
  }

  lemma DottedDistinct(f: Forest)
    requires WellFormed(f) && CleanKeys(f)
    ensures Distinct(Dotted("", LeavesOf(f)))
  {
    var leaves := LeavesOf(f);
    var flat := Dotted("", leaves);
    LeavesDotFree(f);
    DottedAt("", leaves);
    forall i, j | 0 <= i < j < |flat| ensures flat[i].0 != flat[j].0 {
      LeafUnique(f, i, j);
      SplitJoin(leaves[i].0, DOT);
      SplitJoin(leaves[j].0, DOT);
    }
  }

  lemma DottedGet(f: Forest, q: string)
    requires WellFormed(f) && CleanKeys(f)
    ensures Get(Dotted("", LeavesOf(f)), q) == Lookup(f, Split(q, DOT))
  {
    var leaves := LeavesOf(f);
    var flat := Dotted("", leaves);
    DottedDistinct(f);
    DottedAt("", leaves);
    GetKeys(flat, q);
    if Lookup(f, Split(q, DOT)).Some? {
      LeafListed(f, Split(q, DOT));
      var i :| 0 <= i < |leaves| && leaves[i] == (Split(q, DOT), Lookup(f, Split(q, DOT)).value);
      JoinSplit(q, DOT);
      GetAt(flat, i);
    } else if Get(flat, q).Some? {
      var i :| 0 <= i < |flat| && flat[i].0 == q;
      LeavesDotFree(f);
      SplitJoin(leaves[i].0, DOT);
      LeafFound(f, i);
    }
  }

  /** Flattening a clean table lists its leaves under distinct dotted keys. */
  lemma FlattenClean(f: Forest)
    requires WellFormed(f) && Clean(f)
    ensures Flatten(f) == Dotted("", LeavesOf(f)) && Distinct(Flatten(f))
    ensures forall q :: Get(Flatten(f), q) == Lookup(f, Split(q, DOT))
  {
    var flat := Dotted("", LeavesOf(f));
    EmitDotted(f, "");
    DottedDistinct(f);
    assert [] + flat == flat;
    PutAllFresh([], flat);
    forall q ensures Get(flat, q) == Lookup(f, Split(q, DOT)) { DottedGet(f, q); }
  }

  // ---- what a rebuilt table looks like ----

  lemma {:induction false} AssignProps(f: Forest, k: string, t: Tree)
    requires t.Node? ==> t.kids.Cons?
    ensures Names(Assign(f, k, t)) == Names(f) + {k}
    ensures forall q :: Find(Assign(f, k, t), q) == if q == k then Some(t) else Find(f, q)
    ensures WellFormed(f) && (t.Node? ==> WellFormed(t.kids)) ==> WellFormed(Assign(f, k, t))
    ensures CleanKeys(f) && DOT !in k && (t.Node? ==> CleanKeys(t.kids)) ==> CleanKeys(Assign(f, k, t))
    ensures Assign(f, k, t).Cons?
  {
    if f.Cons? && f.key != k { AssignProps(f.rest, k, t); }
  }

  lemma {:induction false} FindSub(f: Forest, k: string)
    requires TableAt(f, k)
    ensures WellFormed(f) ==> WellFormed(Find(f, k).value.kids)
    ensures CleanKeys(f) ==> CleanKeys(Find(f, k).value.kids)
  {
    if f.key != k { FindSub(f.rest, k); }
  }

  ghost predicate Comparable(p: Path, q: Path) {
    p <= q || q <= p
  }

  function TableOr(f: Forest, k: string): Forest {
    if TableAt(f, k) then Find(f, k).value.kids else Nil
  }

  lemma {:induction false} SetPathShape(f: Forest, p: Path, v: string)
    requires WellFormed(f)
    ensures WellFormed(SetPath(f, p, v)) && SetPath(f, p, v).Cons?
    ensures CleanKeys(f) && AllFree(p, DOT) ==> CleanKeys(SetPath(f, p, v))
    ensures forall k :: TableAt(SetPath(f, p, v), k) <==> if k == p[0] then |p| > 1 else TableAt(f, k)
    decreases |p|
  {
    if |p| == 1 {
      AssignProps(f, p[0], Leaf(v));
    } else {
      if TableAt(f, p[0]) { FindSub(f, p[0]); }
      assert AllFree(p, DOT) ==> DOT !in p[0] && AllFree(p[1..], DOT);
      SetPathShape(TableOr(f, p[0]), p[1..], v);
      AssignProps(f, p[0], Node(SetPath(TableOr(f, p[0]), p[1..], v)));
    }
  }

  /** One `setNestedValue`: the new leaf is found, everything on or below its path is gone, the rest stays. */
  lemma {:induction false} SetPathLookup(f: Forest, p: Path, v: string, q: Path)
    requires WellFormed(f)
    ensures Lookup(SetPath(f, p, v), q) ==
      if q == p then Some(v) else if Comparable(p, q) then None else Lookup(f, q)
    decreases |p|
  {
    if |p| == 1 {
      AssignProps(f, p[0], Leaf(v));
      if q[0] == p[0] { assert p <= q; }
    } else {
      var g := TableOr(f, p[0]);
      if TableAt(f, p[0]) { FindSub(f, p[0]); }
      SetPathShape(g, p[1..], v);
      AssignProps(f, p[0], Node(SetPath(g, p[1..], v)));
      if q[0] == p[0] {
        if |q| == 1 {
          assert q <= p;
        } else {
          SetPathLookup(g, p[1..], v, q[1..]);
          assert p == [p[0]] + p[1..] && q == [p[0]] + q[1..];
          assert Comparable(p[1..], q[1..]) <==> Comparable(p, q);
        }
      }
    }
  }

  lemma {:induction false} RebuildShape(m: Entries<string>)
    ensures WellFormed(Rebuild(m)) && CleanKeys(Rebuild(m))
    ensures (forall i :: 0 <= i < |m| ==> !LeadingDot(m[i].0)) ==> Clean(Rebuild(m))
    decreases |m|
  {
    if m != [] {
      var n := |m| - 1;
      RebuildShape(m[..n]);
      SplitFree(m[n].0, DOT);
      var p: Path := Split(m[n].0, DOT);
      SetPathShape(Rebuild(m[..n]), p, m[n].1);
      assert (forall i :: 0 <= i < |m| ==> !LeadingDot(m[i].0)) ==>
        forall i :: 0 <= i < n ==> !LeadingDot(m[..n][i].0);
      assert LeadingDot(m[n].0) <==> p[0] == "" && |p| > 1;
    }
  }

  /** A path and a longer one cannot both be leaves. */
  lemma {:induction false} LookupExclusive(f: Forest, p: Path, q: Path)
    requires p < q
    ensures !(Lookup(f, p).Some? && Lookup(f, q).Some?)
    decreases |p|
  {
    if |p| > 1 && Find(f, p[0]).Some? && Find(f, p[0]).value.Node? {
      LookupExclusive(Find(f, p[0]).value.kids, p[1..], q[1..]);
    }
  }

  lemma GetLast<V>(m: Entries<V>, q: string)
    requires m != [] && Distinct(m)
    ensures Distinct(m[..|m| - 1]) && Keys(m[..|m| - 1]) <= Keys(m)
    ensures Get(m, q) == if q == m[|m| - 1].0 then Some(m[|m| - 1].1) else Get(m[..|m| - 1], q)
    ensures Get(m[..|m| - 1], q).Some? ==> q in Keys(m)
  {
    var n := |m| - 1;
    var k, v := m[n].0, m[n].1;
    assert k !in Keys(m[..n]);
    PutKeys(m[..n], k, v);
    PutGet(m[..n], k, v, q);
    assert m == m[..n] + [(k, v)];
    GetKeys(m[..n], q);
  }

  lemma {:induction false} RebuildLookup(m: Entries<string>, q: string)
    requires Distinct(m) && Rebuildable(Keys(m))
    ensures Lookup(Rebuild(m), Split(q, DOT)) == Get(m, q)
    decreases |m|
  {
    if m != [] {
      var n := |m| - 1;
      var k, v := m[n].0, m[n].1;
      GetLast(m, q);
      assert Rebuildable(Keys(m[..n]));
      RebuildLookup(m[..n], q);
      RebuildShape(m[..n]);
      SetPathLookup(Rebuild(m[..n]), Split(k, DOT), v, Split(q, DOT));
      JoinSplit(k, DOT);
      JoinSplit(q, DOT);
      assert k in Keys(m);
      if q != k && Get(m[..n], q).Some? {
        assert !Comparable(Split(k, DOT), Split(q, DOT));
      }
    }
  }

  // ---- the two round trips ----

  lemma {:induction false} RebuildDotted(leaves: Leaves)
    requires DotFree(leaves)
    ensures Rebuild(Dotted("", leaves)) == SetLeaves(Nil, leaves)
    decreases |leaves|
  {
    DottedAt("", leaves);
    if leaves != [] {
      var n := |leaves| - 1;
      var flat := Dotted("", leaves);
      var last := [leaves[n]];
      assert leaves == leaves[..n] + last;
      DottedAppend("", leaves[..n], last);
      DottedAt("", leaves[..n]);
      assert flat[..n] == Dotted("", leaves[..n]);
      RebuildDotted(leaves[..n]);
      SplitJoin(leaves[n].0, DOT);
      SetLeavesAppend(Nil, leaves[..n], last);
      assert SetLeaves(SetLeaves(Nil, leaves[..n]), last) == SetPath(SetLeaves(Nil, leaves[..n]), leaves[n].0, leaves[n].1);
    }
  }

  lemma {:induction false} EmitNoLeadingDot(f: Forest, prefix: string)
    requires CleanKeys(f) && !LeadingDot(prefix)
    ensures forall i :: 0 <= i < |Emit(f, prefix)| ==> !LeadingDot(Emit(f, prefix)[i].0)
    decreases f
  {
    match f
    case Nil =>
    case Cons(k, t, rest) =>
      EmitNoLeadingDot(rest, prefix);
      if t.Node? { EmitNoLeadingDot(t.kids, FullKey(prefix, k)); }
  }

  lemma FlattenNoLeadingDot(f: Forest)
    requires CleanKeys(f)
    ensures Distinct(Flatten(f))
    ensures forall k :: k in Keys(Flatten(f)) ==> !LeadingDot(k)
  {
    EmitNoLeadingDot(f, "");
    PutAllDistinct([], Emit(f, ""));
    forall k | k in Keys(Flatten(f)) ensures !LeadingDot(k) {
      assert k in Keys(Emit(f, ""));
      var i :| 0 <= i < |Emit(f, "")| && Emit(f, "")[i].0 == k;
    }
  }

  lemma RebuildNeedsClean(f: Forest)
    requires Rebuild(Flatten(f)) == f
    ensures Clean(f)
  {
    RebuildShape(Flatten(f));
    FlattenNoLeadingDot(f);
    forall i | 0 <= i < |Flatten(f)| ensures !LeadingDot(Flatten(f)[i].0) {
      assert Flatten(f)[i].0 in Keys(Flatten(f));
    }
  }

  /** `setNestedValue` over `flattenTranslations(f)` rebuilds f, key order included, exactly when f is clean. */
  lemma RebuildFlatten(f: Forest)
    requires WellFormed(f)
    ensures Rebuild(Flatten(f)) == f <==> Clean(f)
  {
    if Clean(f) {
      FlattenClean(f);
      LeavesDotFree(f);
      RebuildDotted(LeavesOf(f));
      Replay(Nil, f);
    }
    if Rebuild(Flatten(f)) == f {
      RebuildNeedsClean(f);
    }
  }

  /** If every dotted key survives the rebuild, the keys are rebuildable. */
  lemma KeptKeysRebuildable(m: Entries<string>)
    requires Distinct(m) && forall k :: k in Keys(m) ==> Get(Flatten(Rebuild(m)), k).Some?
    ensures Rebuildable(Keys(m))
  {
    var f := Rebuild(m);
    RebuildShape(m);
    FlattenNoLeadingDot(f);
    forall k | k in Keys(m) ensures !LeadingDot(k) { GetKeys(Flatten(f), k); }
    forall i | 0 <= i < |m| ensures !LeadingDot(m[i].0) { assert m[i].0 in Keys(m); }
    FlattenClean(f);
    forall a, b | a in Keys(m) && b in Keys(m) ensures !(Split(a, DOT) < Split(b, DOT)) {
      assert Get(Flatten(f), a).Some? && Get(Flatten(f), b).Some?;
      if Split(a, DOT) < Split(b, DOT) {
        LookupExclusive(f, Split(a, DOT), Split(b, DOT));
      }
    }
  }

  /** Flattening the table rebuilt from a dotted map returns that map exactly when its keys are rebuildable. */
  lemma FlattenRebuild(m: Entries<string>)
    requires Distinct(m)
    ensures SameMap(Flatten(Rebuild(m)), m) <==> Rebuildable(Keys(m))
  {
    if Rebuildable(Keys(m)) {
      var f := Rebuild(m);
      RebuildShape(m);
      forall i | 0 <= i < |m| ensures !LeadingDot(m[i].0) { assert m[i].0 in Keys(m); }
      FlattenClean(f);
      forall q ensures Get(Flatten(f), q) == Get(m, q) { RebuildLookup(m, q); }
    }
    if SameMap(Flatten(Rebuild(m)), m) {
      forall k | k in Keys(m) ensures Get(Flatten(Rebuild(m)), k).Some? { GetKeys(m, k); }
      KeptKeysRebuildable(m);
    }
  }

  /** Nested keys are joined by dots. */
  lemma DotsBetweenKeys(a: string, b: string, text: string)
    requires a != ""
    ensures Flatten(Cons(a, Node(Cons(b, Leaf(text), Nil)), Nil)) == [(a + "." + b, text)]
  {
    var one: Entries<string> := [(a + "." + b, text)];
    assert Emit(Cons(b, Leaf(text), Nil), a) == one;
    assert Emit(Cons(a, Node(Cons(b, Leaf(text), Nil)), Nil), "") == one;
    assert [] + one == one;
    PutAllFresh([], one);
  }
}
