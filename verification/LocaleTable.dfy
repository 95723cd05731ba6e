/**
 Locale tables as objects: `setNestedValue` walks nested tables with a cursor and assigns in place.
 A ghost layout says which object stands where; without the objects it is the table as a value.
 */
module LocaleTable {
  import opened Text
  import opened OrderedMap
  import opened LocaleTree

  datatype Value = Str(text: string) | Sub(table: Table)

  /** The properties of an object in insertion order. */
  type Cells = seq<(string, Value)>

  function Read(c: Cells, key: string): Option<Value> {
    if c == [] then None else if c[0].0 == key then Some(c[0].1) else Read(c[1..], key)
  }

  function Write(c: Cells, key: string, value: Value): Cells {
    if c == [] then [(key, value)]
    else if c[0].0 == key then [(key, value)] + c[1..]
    else [c[0]] + Write(c[1..], key, value)
  }

  class Table {
    var cells: Cells

    constructor ()
      ensures cells == []
    {
      cells := [];
    }
  }

  // ---- layouts ----

  datatype Place = Plain(text: string) | Nested(table: Table, kids: Layout)

  datatype Layout = Empty | Entry(key: string, place: Place, rest: Layout)

  ghost function Tables(s: Layout): set<Table> {
    match s
    case Empty => {}
    case Entry(_, Plain(_), rest) => Tables(rest)
    case Entry(_, Nested(t, kids), rest) => {t} + Tables(kids) + Tables(rest)
  }

  ghost function TablesOf(p: Place): set<Table> {
    if p.Plain? then {} else {p.table} + Tables(p.kids)
  }

  /** No object stands in two places. */
  ghost predicate Apart(s: Layout) {
    match s
    case Empty => true
    case Entry(_, p, rest) => ApartAt(p) && Apart(rest) && TablesOf(p) !! Tables(rest)
  }

  ghost predicate ApartAt(p: Place) {
    p.Nested? ==> Apart(p.kids) && p.table !in Tables(p.kids)
  }

  type Heap = map<Table, Cells>

  /** What the tables hold now. */
  ghost function Now(tables: set<Table>): Heap
    reads tables
  {
    map t | t in tables :: t.cells
  }

  /** The properties, and the objects below them, are as laid out. */
  ghost predicate Holds(h: Heap, c: Cells, s: Layout)
    decreases s
  {
    match s
    case Empty => c == []
    case Entry(k, Plain(text), rest) => c != [] && c[0] == (k, Str(text)) && Holds(h, c[1..], rest)
    case Entry(k, Nested(t, kids), rest) =>
      c != [] && c[0] == (k, Sub(t)) && t in h && Holds(h, h[t], kids) && Holds(h, c[1..], rest)
  }

  ghost predicate Valid(root: Table, s: Layout)
    reads root, Tables(s)
  {
    root !in Tables(s) && Apart(s) && Holds(Now(Tables(s)), root.cells, s)
  }

  /** The table as a value. */
  ghost function View(s: Layout): Forest {
    match s
    case Empty => Nil
    case Entry(k, p, rest) => Cons(k, ViewOf(p), View(rest))
  }

  ghost function ViewOf(p: Place): Tree {
    match p
    case Plain(text) => Leaf(text)
    case Nested(_, kids) => Node(View(kids))
  }

  ghost function FindPlace(s: Layout, key: string): Option<Place> {
    match s
    case Empty => None
    case Entry(k, p, rest) => if k == key then Some(p) else FindPlace(rest, key)
  }

  ghost function Change(s: Layout, key: string, p: Place): Layout {
    match s
    case Empty => Entry(key, p, Empty)
    case Entry(k, present, rest) => if k == key then Entry(key, p, rest) else Entry(k, present, Change(rest, key, p))
  }

  ghost function TablesAt(s: Layout, key: string): set<Table> {
    match FindPlace(s, key) case None => {} case Some(p) => TablesOf(p)
  }

  /** Walking down the keys of `path` from the root ends at the cursor, whose layout is `sub`. */
  ghost predicate Leads(root: Table, s: Layout, path: seq<string>, cursor: Table, sub: Layout)
    decreases |path|
  {
    if path == [] then cursor == root && sub == s
    else
      match FindPlace(s, path[0])
      case Some(Nested(t, kids)) => Leads(t, kids, path[1..], cursor, sub)
      case _ => false
  }

  /** The layout with another one at the end of the path. */
  ghost function Graft(s: Layout, path: seq<string>, sub: Layout): Layout
    decreases |path|
  {
    if path == [] then sub
    else
      match FindPlace(s, path[0])
      case Some(Nested(t, kids)) => Change(s, path[0], Nested(t, Graft(kids, path[1..], sub)))
      case _ => s
  }

  // ---- one table ----

  lemma {:induction false} ReadPlace(h: Heap, c: Cells, s: Layout, key: string)
    requires Holds(h, c, s)
    ensures Read(c, key) ==
      match FindPlace(s, key)
      case None => None
      case Some(Plain(text)) => Some(Str(text))
      case Some(Nested(t, _)) => Some(Sub(t))
  {
    if s.Entry? { ReadPlace(h, c[1..], s.rest, key); }
  }

  ghost predicate Stores(h: Heap, value: Value, p: Place) {
    match p
    case Plain(text) => value == Str(text)
    case Nested(t, kids) => value == Sub(t) && t in h && Holds(h, h[t], kids)
  }

  lemma {:induction false} WriteHolds(h: Heap, c: Cells, s: Layout, key: string, value: Value, p: Place)
    requires Holds(h, c, s) && Stores(h, value, p)
    ensures Holds(h, Write(c, key, value), Change(s, key, p))
  {
    if s.Entry? && s.key != key { WriteHolds(h, c[1..], s.rest, key, value, p); }
  }

  /** Only the tables of a layout matter to it. */
  lemma {:induction false} Untouched(h: Heap, h': Heap, c: Cells, s: Layout)
    requires Holds(h, c, s) && forall t :: t in Tables(s) && t in h ==> t in h' && h'[t] == h[t]
    ensures Holds(h', c, s)
    decreases s
  {
    match s
    case Empty =>
    case Entry(_, Plain(_), rest) => Untouched(h, h', c[1..], rest);
    case Entry(_, Nested(t, kids), rest) =>
      Untouched(h, h', c[1..], rest);
      Untouched(h, h', h[t], kids);
  }

  lemma {:induction false} ChangeView(s: Layout, key: string, p: Place)
    ensures View(Change(s, key, p)) == Assign(View(s), key, ViewOf(p))
    ensures FindPlace(Change(s, key, p), key) == Some(p)
  {
    if s.Entry? { ChangeView(s.rest, key, p); }
  }

  lemma {:induction false} FindView(s: Layout, key: string)
    ensures Find(View(s), key) == match FindPlace(s, key) case None => None case Some(p) => Some(ViewOf(p))
  {
    if s.Entry? { FindView(s.rest, key); }
  }

  lemma {:induction false} ChangeApart(s: Layout, key: string, p: Place, extra: set<Table>)
    requires Apart(s) && ApartAt(p) && TablesOf(p) <= TablesAt(s, key) + extra && extra !! Tables(s)
    ensures Apart(Change(s, key, p)) && Tables(Change(s, key, p)) <= Tables(s) + extra
  {
    if s.Entry? && s.key != key { ChangeApart(s.rest, key, p, extra); }
  }

  lemma {:induction false} PlaceInside(h: Heap, c: Cells, s: Layout, key: string)
    requires Holds(h, c, s) && Apart(s) && FindPlace(s, key).Some?
    ensures var p := FindPlace(s, key).value;
      ApartAt(p) && TablesOf(p) <= Tables(s) && (p.Nested? ==> p.table in h && Holds(h, h[p.table], p.kids))
  {
    if s.key != key { PlaceInside(h, c[1..], s.rest, key); }
  }

  lemma {:induction false} AssignTwice(f: Forest, k: string, x: Tree, y: Tree)
    ensures Assign(Assign(f, k, x), k, y) == Assign(f, k, y)
    ensures Find(Assign(f, k, x), k) == Some(x)
  {
    if f.Cons? { AssignTwice(f.rest, k, x, y); }
  }

  // ---- along the path ----

  lemma {:induction false} LeadsInside(h: Heap, c: Cells, root: Table, s: Layout, path: seq<string>, cursor: Table, sub: Layout)
    requires Holds(h, c, s) && Apart(s) && root !in Tables(s) && Leads(root, s, path, cursor, sub)
    ensures Apart(sub) && cursor !in Tables(sub) && Tables(sub) <= Tables(s) && cursor in Tables(s) + {root}
    ensures if path == [] then cursor == root && sub == s else cursor in h && Holds(h, h[cursor], sub)
    decreases |path|
  {
    if path != [] {
      PlaceInside(h, c, s, path[0]);
      var p := FindPlace(s, path[0]).value;
      LeadsInside(h, h[p.table], p.table, p.kids, path[1..], cursor, sub);
    }
  }

  /** The cursor stands at a valid table of its own. */
  lemma CursorValid(root: Table, s: Layout, path: seq<string>, cursor: Table, sub: Layout)
    requires Valid(root, s) && Leads(root, s, path, cursor, sub)
    ensures Valid(cursor, sub) && Tables(sub) <= Tables(s) && cursor in Tables(s) + {root}
  {
    LeadsInside(Now(Tables(s)), root.cells, root, s, path, cursor, sub);
    Untouched(Now(Tables(s)), Now(Tables(sub)), cursor.cells, sub);
  }

  lemma {:induction false} LeadsOn(root: Table, s: Layout, path: seq<string>, cursor: Table, sub: Layout, key: string)
    requires Leads(root, s, path, cursor, sub) && FindPlace(sub, key).Some? && FindPlace(sub, key).value.Nested?
    ensures var p := FindPlace(sub, key).value;
      Leads(root, s, path + [key], p.table, p.kids)
    decreases |path|
  {
    if path != [] {
      var p := FindPlace(s, path[0]).value;
      LeadsOn(p.table, p.kids, path[1..], cursor, sub, key);
      assert (path + [key])[1..] == path[1..] + [key];
    }
  }

  lemma {:induction false} GraftApart(h: Heap, c: Cells, root: Table, s: Layout, path: seq<string>, cursor: Table,
                                      sub: Layout, sub': Layout, extra: set<Table>)
    requires Holds(h, c, s) && Apart(s) && root !in Tables(s) && Leads(root, s, path, cursor, sub)
    requires Apart(sub') && Tables(sub') <= Tables(sub) + extra && extra !! Tables(s) + {root}
    ensures var s' := Graft(s, path, sub');
      Apart(s') && Tables(s') <= Tables(s) + extra && Leads(root, s', path, cursor, sub')
    decreases |path|
  {
    if path != [] {
      PlaceInside(h, c, s, path[0]);
      var p := FindPlace(s, path[0]).value;
      GraftApart(h, h[p.table], p.table, p.kids, path[1..], cursor, sub, sub', extra);
      var p' := Nested(p.table, Graft(p.kids, path[1..], sub'));
      ChangeApart(s, path[0], p', extra);
      ChangeView(s, path[0], p');
    }
  }

  lemma {:induction false} CursorBelow(root: Table, s: Layout, path: seq<string>, cursor: Table, sub: Layout)
    requires Apart(s) && path != [] && Leads(root, s, path, cursor, sub)
    ensures cursor in TablesAt(s, path[0]) && TablesAt(s, path[0]) <= Tables(s)
    decreases |path|, s
  {
    if s.key != path[0] {
      CursorBelow(root, s.rest, path, cursor, sub);
    } else if |path| > 1 {
      CursorBelow(s.place.table, s.place.kids, path[1..], cursor, sub);
    }
  }

  /** An assignment to the cursor lays the whole table out anew, changed at the cursor's place only. */
  lemma {:induction false} GraftHolds(h: Heap, h': Heap, c: Cells, root: Table, s: Layout, path: seq<string>,
                                      cursor: Table, sub: Layout, sub': Layout)
    requires Holds(h, c, s) && Apart(s) && path != [] && Leads(root, s, path, cursor, sub)
    requires forall t :: t in Tables(s) && t in h && t != cursor ==> t in h' && h'[t] == h[t]
    requires cursor in h' && Holds(h', h'[cursor], sub')
    ensures Holds(h', c, Graft(s, path, sub'))
    decreases |path|, s
  {
    CursorBelow(root, s, path, cursor, sub);
    if s.key != path[0] {
      CursorBelow(root, s.rest, path, cursor, sub);
      GraftHolds(h, h', c[1..], root, s.rest, path, cursor, sub, sub');
      if s.place.Nested? { Untouched(h, h', h[s.place.table], s.place.kids); }
    } else {
      var t, kids := s.place.table, s.place.kids;
      Untouched(h, h', c[1..], s.rest);
      if |path| > 1 {
        CursorBelow(t, kids, path[1..], cursor, sub);
        GraftHolds(h, h', h[t], t, kids, path[1..], cursor, sub, sub');
      }
    }
  }

  /** What is set through the cursor is set in the whole table. */
  lemma {:induction false} GraftView(root: Table, s: Layout, path: seq<string>, cursor: Table, sub: Layout, sub': Layout,
                                     suffix: Path, v: string)
    requires Leads(root, s, path, cursor, sub)
    ensures View(sub') == SetPath(View(sub), suffix, v) ==> View(Graft(s, path, sub')) == SetPath(View(s), path + suffix, v)
    ensures SetPath(View(sub'), suffix, v) == SetPath(View(sub), suffix, v) ==>
      SetPath(View(Graft(s, path, sub')), path + suffix, v) == SetPath(View(s), path + suffix, v)
    decreases |path|
  {
    if path == [] {
      assert path + suffix == suffix;
    } else {
      var k, p := path[0], FindPlace(s, path[0]).value;
      var kids' := Graft(p.kids, path[1..], sub');
      GraftView(p.table, p.kids, path[1..], cursor, sub, sub', suffix, v);
      assert (path + suffix)[1..] == path[1..] + suffix;
      FindView(s, k);
      ChangeView(s, k, Nested(p.table, kids'));
      AssignTwice(View(s), k, Node(View(kids')), Node(SetPath(View(kids'), path[1..] + suffix, v)));
    }
  }

  /** Putting an empty table where there is none does not change what setting a path through it gives. */
  lemma EmptyTable(sub: Layout, t: Table, suffix: Path, v: string)
    requires |suffix| > 1 && !TableAt(View(sub), suffix[0])
    ensures SetPath(View(Change(sub, suffix[0], Nested(t, Empty))), suffix, v) == SetPath(View(sub), suffix, v)
  {
    ChangeView(sub, suffix[0], Nested(t, Empty));
    AssignTwice(View(sub), suffix[0], Node(Nil), Node(SetPath(Nil, suffix[1..], v)));
  }

  // ---- the program ----

  /** One assignment at the cursor. */
  method AssignAt(root: Table, ghost s: Layout, ghost path: seq<string>, cursor: Table, ghost sub: Layout,
                  key: string, value: Value, ghost p: Place)
    returns (ghost s': Layout)
    requires Valid(root, s) && Leads(root, s, path, cursor, sub)
    requires Stores(Now(TablesOf(p)), value, p) && ApartAt(p) && TablesOf(p) !! Tables(s) + {root}
    modifies cursor
    ensures s' == Graft(s, path, Change(sub, key, p))
    ensures Valid(root, s') && Leads(root, s', path, cursor, Change(sub, key, p))
    ensures Tables(s') <= Tables(s) + TablesOf(p) && cursor in Tables(s) + {root}
  {
    ghost var h, c, sub' := Now(Tables(s)), root.cells, Change(sub, key, p);
    s' := Graft(s, path, sub');
    CursorValid(root, s, path, cursor, sub);
    ghost var before := cursor.cells;
    ChangeApart(sub, key, p, TablesOf(p));
    GraftApart(h, c, root, s, path, cursor, sub, sub', TablesOf(p));
    ghost var own, new' := Now(Tables(sub)), Now(TablesOf(p));
    cursor.cells := Write(cursor.cells, key, value);
    ghost var h' := Now(Tables(s) + {root} + TablesOf(p));
    CellWritten(own, new', h', before, sub, key, value, p);
    if path != [] {
      CursorBelow(root, s, path, cursor, sub);
      GraftHolds(h, h', c, root, s, path, cursor, sub, sub');
    }
    Untouched(h', Now(Tables(s')), root.cells, s');
  }

  lemma CellWritten(own: Heap, added: Heap, h: Heap, c: Cells, sub: Layout, key: string, value: Value, p: Place)
    requires Holds(own, c, sub) && forall t :: t in Tables(sub) && t in own ==> t in h && h[t] == own[t]
    requires Stores(added, value, p) && forall t :: t in TablesOf(p) && t in added ==> t in h && h[t] == added[t]
    ensures Holds(h, Write(c, key, value), Change(sub, key, p))
  {
    Untouched(own, h, c, sub);
    if p.Nested? { Untouched(added, h, added[p.table], p.kids); }
    WriteHolds(h, c, sub, key, value, p);
  }

  /** One step of the walk: a missing or string property is replaced by a new table. */
  method Enter(root: Table, ghost s: Layout, ghost path: seq<string>, cursor: Table, ghost sub: Layout, key: string,
               ghost suffix: Path, ghost value: string, ghost tables: set<Table>)
    returns (below: Table, ghost s': Layout, ghost sub': Layout)
    requires Valid(root, s) && Leads(root, s, path, cursor, sub) && tables == Tables(s)
    requires |suffix| > 1 && suffix[0] == key
    modifies cursor
    ensures Valid(root, s') && fresh(Tables(s') - Tables(s))
    ensures Leads(root, s', path + [key], below, sub')
    ensures SetPath(View(s'), path + suffix, value) == SetPath(View(s), path + suffix, value)
  {
    s', sub' := s, sub;
    CursorValid(root, s, path, cursor, sub);
    ReadPlace(Now(Tables(sub)), cursor.cells, sub, key);
    var next := Read(cursor.cells, key);
    if next.None? || next.value.Str? {
      below := new Table();
      assert below !in tables && below != root;
      ghost var p := Nested(below, Empty);
      FindView(sub, key);
      EmptyTable(sub, below, suffix, value);
      GraftView(root, s, path, cursor, sub, Change(sub, key, p), suffix, value);
      s' := AssignAt(root, s, path, cursor, sub, key, Sub(below), p);
      ChangeView(sub, key, p);
      sub' := Change(sub, key, p);
    } else {
      below := next.value.table;
    }
    LeadsOn(root, s', path, cursor, sub', key);
    sub' := FindPlace(sub', key).value.kids;
  }

  method SetNestedValue(root: Table, dottedKey: string, value: string, ghost s: Layout) returns (ghost s': Layout)
    requires Valid(root, s)
    modifies {root} + Tables(s)
    ensures Valid(root, s') && fresh(Tables(s') - Tables(s))
    ensures View(s') == LocaleTree.SetNestedValue(View(s), dottedKey, value)
  {
    hide Apart, Holds, View, SetPath;
    var parts := Split(dottedKey, DOT);
    var cursor := root;
    s' := s;
    ghost var sub, tables := s, Tables(s);
    for index := 0 to |parts| - 1
      invariant Valid(root, s') && forall t :: t in tables && t !in Tables(s) ==> fresh(t)
      invariant Leads(root, s', parts[..index], cursor, sub)
      invariant SetPath(View(s'), parts, value) == SetPath(View(s), parts, value)
      invariant tables == Tables(s')
    {
      assert parts == parts[..index] + parts[index..] && parts[..index + 1] == parts[..index] + [parts[index]];
      CursorValid(root, s', parts[..index], cursor, sub);
      label before:
      cursor, s', sub := Enter(root, s', parts[..index], cursor, sub, parts[index], parts[index..], value, tables);
      forall t | t in Tables(s') && t !in Tables(s) ensures fresh(t) {
        if t !in tables { assert !old@before(allocated(t)); }
      }
      tables := Tables(s');
    }
    var last := |parts| - 1;
    ghost var p := Plain(value);
    assert parts == parts[..last] + [parts[last]];
    CursorValid(root, s', parts[..last], cursor, sub);
    SetLast(sub, parts[last], value);
    GraftView(root, s', parts[..last], cursor, sub, Change(sub, parts[last], p), [parts[last]], value);
    s' := AssignAt(root, s', parts[..last], cursor, sub, parts[last], Str(value), p);
  }

  lemma SetLast(sub: Layout, key: string, v: string)
    ensures View(Change(sub, key, Plain(v))) == SetPath(View(sub), [key], v)
  {
    ChangeView(sub, key, Plain(v));
  }

  /** `setNestedValue` for every entry of a flat map, in order, into a new table. */
  method BuildNextMap(m: Entries<string>) returns (root: Table, ghost s: Layout)
    ensures fresh(root) && Valid(root, s) && View(s) == Rebuild(m)
  {
    root := new Table();
    s := Empty;
    for i := 0 to |m|
      invariant Valid(root, s) && forall t :: t in Tables(s) ==> fresh(t)
      invariant View(s) == Rebuild(m[..i])
    {
      assert m[..i + 1][..i] == m[..i];
      label before:
      ghost var tables := Tables(s);
      s := SetNestedValue(root, m[i].0, m[i].1, s);
      forall t | t in Tables(s) ensures fresh(t) {
        if t !in tables { assert !old@before(allocated(t)); }
      }
    }
    assert m[..|m|] == m;
  }

  /** Reading a table out as it is rendered: every property in order, nested tables inside. */
  method Render(c: Cells, ghost s: Layout, ghost tables: set<Table>) returns (f: Forest)
    requires Holds(Now(tables), c, s)
    ensures f == View(s)
    decreases s
  {
    if |c| == 0 {
      return Nil;
    }
    var rest := Render(c[1..], s.rest, tables);
    match c[0].1 {
      case Str(text) =>
        f := Cons(c[0].0, Leaf(text), rest);
      case Sub(table) =>
        var kids := Render(table.cells, s.place.kids, tables);
        f := Cons(c[0].0, Node(kids), rest);
    }
  }
}
