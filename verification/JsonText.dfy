/**
 JSON values and their text, as `JSON.stringify` writes it without white space.  The text determines the value.
 */
module JsonText {
  import opened OrderedMap

  /** A number, a truth value or null by its text, a string by its characters; object entries in the order written. */
  datatype Json = Scalar(text: string) | Text(chars: string) | Arr(items: seq<Json>) | Obj(fields: Entries<Json>)

  predicate ScalarChar(c: char) {
    'a' <= c <= 'z' || 'A' <= c <= 'Z' || '0' <= c <= '9' || c == '+' || c == '-' || c == '.'
  }

  predicate ScalarText(s: string) {
    s != "" && forall i :: 0 <= i < |s| ==> ScalarChar(s[i])
  }

  /** Scalars are written in scalar characters, and the keys of an object are distinct, at every depth. */
  ghost predicate WellFormed(j: Json) {
    match j
    case Scalar(text) => ScalarText(text)
    case Text(_) => true
    case Arr(items) => forall i :: 0 <= i < |items| ==> WellFormed(items[i])
    case Obj(fields) => Distinct(fields) && forall i :: 0 <= i < |fields| ==> WellFormed(fields[i].1)
  }

  // ---- printing ----

  function HexDigit(n: nat): char
    requires n < 16
  {
    if n < 10 then '0' + n as char else 'a' + (n - 10) as char
  }

  /** One character of a string: quotes, backslashes and control characters are escaped. */
  function Escaped(c: char): string {
    if c == '"' then "\\\""
    else if c == '\\' then "\\\\"
    else if c as int == 8 then "\\b"
    else if c as int == 9 then "\\t"
    else if c as int == 10 then "\\n"
    else if c as int == 12 then "\\f"
    else if c as int == 13 then "\\r"
    else if c as int < 32 then "\\u00" + [HexDigit(c as int / 16), HexDigit(c as int % 16)]
    else [c]
  }

  function Escape(s: string): string {
    if s == "" then "" else Escaped(s[0]) + Escape(s[1..])
  }

  function Quoted(s: string): string {
    "\"" + (Escape(s) + "\"")
  }

  /** The parts with commas between them, and what closes the list. */
  function List(parts: seq<string>, close: string): string {
    if parts == [] then close else parts[0] + More(parts[1..], close)
  }

  function More(parts: seq<string>, close: string): string {
    if parts == [] then close else "," + (parts[0] + More(parts[1..], close))
  }

  function Print(j: Json): string {
    match j
    case Scalar(text) => text
    case Text(chars) => Quoted(chars)
    case Arr(items) => "[" + List(seq(|items|, i requires 0 <= i < |items| => Print(items[i])), "]")
    case Obj(fields) =>
      "{" + List(seq(|fields|, i requires 0 <= i < |fields| => Quoted(fields[i].0) + (":" + Print(fields[i].1))), "}")
  }

  function PrintAll(items: seq<Json>): seq<string> {
    seq(|items|, i requires 0 <= i < |items| => Print(items[i]))
  }

  function PrintField(f: (string, Json)): string {
    Quoted(f.0) + (":" + Print(f.1))
  }

  function PrintFields(fields: Entries<Json>): seq<string> {
    seq(|fields|, i requires 0 <= i < |fields| => PrintField(fields[i]))
  }

  lemma PrintParts(j: Json)
    ensures j.Arr? ==> Print(j) == "[" + List(PrintAll(j.items), "]")
    ensures j.Obj? ==> Print(j) == "{" + List(PrintFields(j.fields), "}")
  {
    if j.Obj? {
      assert PrintFields(j.fields)
        == seq(|j.fields|, i requires 0 <= i < |j.fields| => Quoted(j.fields[i].0) + (":" + Print(j.fields[i].1)));
    }
  }

  // ---- reading ----

  /** What may follow a value inside a text. */
  predicate Ends(x: string) {
    x == "" || x[0] == ',' || x[0] == ']' || x[0] == '}'
  }

  /** Cutting the same beginning off two equal texts. */
  lemma Cut(a: string, x: string, b: string, y: string)
    requires a + x == b + y && |a| == |b|
    ensures a == b && x == y
  {
    assert (a + x)[..|a|] == a && (b + y)[..|b|] == b;
    assert (a + x)[|a|..] == x && (b + y)[|b|..] == y;
  }

  /** Where a scalar's text ends: behind it comes no scalar character. */
  lemma ScalarEnds(s: string, x: string)
    requires ScalarText(s) && Ends(x)
    ensures forall i :: 0 <= i < |s| ==> ScalarChar((s + x)[i])
    ensures |s + x| > |s| ==> !ScalarChar((s + x)[|s|])
  {
  }

  lemma ScalarUnique(s: string, t: string, x: string, y: string)
    requires ScalarText(s) && ScalarText(t) && Ends(x) && Ends(y) && s + x == t + y
    ensures s == t && x == y
  {
    ScalarEnds(s, x);
    ScalarEnds(t, y);
    Cut(s, x, t, y);
  }

  /** An escaped character begins with a backslash exactly when it is more than itself, and its next character tells which it is. */
  lemma EscapedShape(c: char)
    ensures |Escaped(c)| >= 1 && Escaped(c)[0] != '"'
    ensures |Escaped(c)| == 1 ==> Escaped(c) == [c] && c != '\\'
    ensures |Escaped(c)| > 1 ==> Escaped(c)[0] == '\\' && (|Escaped(c)| == 2 || (|Escaped(c)| == 6 && Escaped(c)[1] == 'u'))
    ensures |Escaped(c)| == 2 ==> Escaped(c)[1] != 'u'
  {
  }

  lemma EscapedInjective(c: char, d: char)
    requires Escaped(c) == Escaped(d)
    ensures c == d
  {
    if |Escaped(c)| == 6 {
      assert Escaped(c)[4] == HexDigit(c as int / 16) && Escaped(c)[5] == HexDigit(c as int % 16);
      assert Escaped(d)[4] == HexDigit(d as int / 16) && Escaped(d)[5] == HexDigit(d as int % 16);
    } else if |Escaped(c)| == 2 {
      assert Escaped(c)[1] == Escaped(d)[1];
    } else {
      assert Escaped(c)[0] == Escaped(d)[0];
    }
  }

  lemma EscapedUnique(c: char, d: char, x: string, y: string)
    requires Escaped(c) + x == Escaped(d) + y
    ensures c == d && x == y
  {
    hide Escaped;
    EscapedShape(c);
    EscapedShape(d);
    var s, t := Escaped(c) + x, Escaped(d) + y;
    assert s[0] == Escaped(c)[0] && t[0] == Escaped(d)[0];
    if |Escaped(c)| > 1 && |Escaped(d)| > 1 {
      assert s[1] == Escaped(c)[1] && t[1] == Escaped(d)[1];
    }
    Cut(Escaped(c), x, Escaped(d), y);
    EscapedInjective(c, d);
  }

  /** The closing quote comes first exactly when no character is left. */
  lemma EscapeStarts(s: string, x: string)
    ensures var text := Escape(s) + ("\"" + x); text != "" && (text[0] == '"' <==> s == "")
  {
    if s != "" { EscapedShape(s[0]); }
  }

  lemma {:induction false} EscapeUnique(s: string, t: string, x: string, y: string)
    requires Escape(s) + ("\"" + x) == Escape(t) + ("\"" + y)
    ensures s == t && x == y
  {
    hide Escaped;
    EscapeStarts(s, x);
    EscapeStarts(t, y);
    if s == "" {
      assert Escape(s) + ("\"" + x) == "\"" + x && Escape(t) + ("\"" + y) == "\"" + y;
      Cut("\"", x, "\"", y);
    } else {
      var u, v := Escape(s[1..]) + ("\"" + x), Escape(t[1..]) + ("\"" + y);
      assert Escape(s) + ("\"" + x) == Escaped(s[0]) + u && Escape(t) + ("\"" + y) == Escaped(t[0]) + v;
      EscapedUnique(s[0], t[0], u, v);
      EscapeUnique(s[1..], t[1..], x, y);
      assert s == [s[0]] + s[1..] && t == [t[0]] + t[1..];
    }
  }

  lemma QuotedUnique(s: string, t: string, x: string, y: string)
    requires Quoted(s) + x == Quoted(t) + y
    ensures s == t && x == y
  {
    hide Escape;
    var u, v := Escape(s) + ("\"" + x), Escape(t) + ("\"" + y);
    assert Quoted(s) + x == "\"" + u && Quoted(t) + y == "\"" + v;
    Cut("\"", u, "\"", v);
    EscapeUnique(s, t, x, y);
  }

  // ---- values ----

  lemma FirstChar(j: Json)
    requires WellFormed(j)
    ensures Print(j) != ""
    ensures match j
      case Scalar(_) => ScalarChar(Print(j)[0])
      case Text(_) => Print(j)[0] == '"'
      case Arr(_) => Print(j)[0] == '['
      case Obj(_) => Print(j)[0] == '{'
  {
  }

  lemma {:induction false} ListAppend(parts: seq<string>, close: string, x: string)
    ensures List(parts, close) + x == List(parts, close + x)
    ensures More(parts, close) + x == More(parts, close + x)
    decreases |parts|
  {
    if parts != [] {
      ListAppend(parts[1..], close, x);
      assert parts[0] + More(parts[1..], close) + x == parts[0] + (More(parts[1..], close) + x);
      assert "," + (parts[0] + More(parts[1..], close)) + x == "," + (parts[0] + (More(parts[1..], close) + x));
    }
  }

  /** A text that begins a list's rest: it ends a value. */
  lemma MoreEnds(parts: seq<string>, close: string)
    requires close != "" && Ends(close)
    ensures Ends(More(parts, close)) && More(parts, close) != ""
    ensures More(parts, close)[0] == if parts == [] then close[0] else ','
  {
  }

  // ---- lists and values ----

  ghost predicate AllBelow(items: seq<Json>, bound: Json) {
    forall i :: 0 <= i < |items| ==> items[i] < bound && WellFormed(items[i])
  }

  ghost predicate AllWell(items: seq<Json>) {
    forall i :: 0 <= i < |items| ==> WellFormed(items[i])
  }

  lemma PrintAllTail(items: seq<Json>)
    requires items != []
    ensures PrintAll(items) != [] && PrintAll(items)[0] == Print(items[0]) && PrintAll(items)[1..] == PrintAll(items[1..])
  {
  }

  lemma PrintFieldsTail(fields: Entries<Json>)
    requires fields != []
    ensures PrintFields(fields) != [] && PrintFields(fields)[0] == PrintField(fields[0])
    ensures PrintFields(fields)[1..] == PrintFields(fields[1..])
  {
  }

  /** The rest of an array after a value, closed by a bracket. */
  lemma {:induction false} MoreItems(bound: Json, a: seq<Json>, b: seq<Json>, x: string, y: string)
    requires AllBelow(a, bound) && AllWell(b)
    requires More(PrintAll(a), "]" + x) == More(PrintAll(b), "]" + y)
    ensures a == b && x == y
    decreases bound, 0, |a|
  {
    MoreEnds(PrintAll(a), "]" + x);
    MoreEnds(PrintAll(b), "]" + y);
    if a == [] {
      Cut("]", x, "]", y);
    } else {
      PrintAllTail(a);
      PrintAllTail(b);
      var u, v := Print(a[0]) + More(PrintAll(a[1..]), "]" + x), Print(b[0]) + More(PrintAll(b[1..]), "]" + y);
      Cut(",", u, ",", v);
      MoreEnds(PrintAll(a[1..]), "]" + x);
      MoreEnds(PrintAll(b[1..]), "]" + y);
      Unique(a[0], b[0], More(PrintAll(a[1..]), "]" + x), More(PrintAll(b[1..]), "]" + y));
      MoreItems(bound, a[1..], b[1..], x, y);
      assert a == [a[0]] + a[1..] && b == [b[0]] + b[1..];
    }
  }

  lemma {:induction false} MoreFields(bound: Json, a: Entries<Json>, b: Entries<Json>, x: string, y: string)
    requires FieldsBelow(a, bound) && FieldsWell(b)
    requires More(PrintFields(a), "}" + x) == More(PrintFields(b), "}" + y)
    ensures a == b && x == y
    decreases bound, 0, |a|
  {
    MoreEnds(PrintFields(a), "}" + x);
    MoreEnds(PrintFields(b), "}" + y);
    if a == [] {
      Cut("}", x, "}", y);
    } else {
      PrintFieldsTail(a);
      PrintFieldsTail(b);
      var u, v := PrintField(a[0]) + More(PrintFields(a[1..]), "}" + x), PrintField(b[0]) + More(PrintFields(b[1..]), "}" + y);
      Cut(",", u, ",", v);
      FieldFirst(bound, a, b, x, y);
      MoreFields(bound, a[1..], b[1..], x, y);
      assert a == [a[0]] + a[1..] && b == [b[0]] + b[1..];
    }
  }

  ghost predicate FieldsBelow(fields: Entries<Json>, bound: Json) {
    forall i :: 0 <= i < |fields| ==> fields[i].1 < bound && WellFormed(fields[i].1)
  }

  ghost predicate FieldsWell(fields: Entries<Json>) {
    forall i :: 0 <= i < |fields| ==> WellFormed(fields[i].1)
  }

  /** The first key and value of two objects that read the same. */
  lemma FieldFirst(bound: Json, a: Entries<Json>, b: Entries<Json>, x: string, y: string)
    requires a != [] && b != [] && FieldsBelow(a, bound) && FieldsWell(b)
    requires PrintField(a[0]) + More(PrintFields(a[1..]), "}" + x) == PrintField(b[0]) + More(PrintFields(b[1..]), "}" + y)
    ensures a[0] == b[0] && More(PrintFields(a[1..]), "}" + x) == More(PrintFields(b[1..]), "}" + y)
    decreases bound, 0, 0
  {
    hide Print, Quoted, More;
    var u, v := More(PrintFields(a[1..]), "}" + x), More(PrintFields(b[1..]), "}" + y);
    MoreEnds(PrintFields(a[1..]), "}" + x);
    MoreEnds(PrintFields(b[1..]), "}" + y);
    assert PrintField(a[0]) + u == Quoted(a[0].0) + (":" + (Print(a[0].1) + u));
    assert PrintField(b[0]) + v == Quoted(b[0].0) + (":" + (Print(b[0].1) + v));
    QuotedUnique(a[0].0, b[0].0, ":" + (Print(a[0].1) + u), ":" + (Print(b[0].1) + v));
    Cut(":", Print(a[0].1) + u, ":", Print(b[0].1) + v);
    Unique(a[0].1, b[0].1, u, v);
  }

  /** A list is empty when it begins with what closes it; the others begin with a part. */
  lemma ListStarts(parts: seq<string>, close: string)
    requires close != "" && (parts != [] ==> parts[0] != "")
    ensures List(parts, close) != "" && List(parts, close)[0] == if parts == [] then close[0] else parts[0][0]
  {
  }

  lemma {:induction false} ListItems(a: Json, b: Json, x: string, y: string)
    requires a.Arr? && b.Arr? && WellFormed(a) && WellFormed(b)
    requires List(PrintAll(a.items), "]" + x) == List(PrintAll(b.items), "]" + y)
    ensures a == b && x == y
    decreases a, 0, |a.items|
  {
    var p, q := PrintAll(a.items), PrintAll(b.items);
    if a.items != [] { FirstChar(a.items[0]); PrintAllTail(a.items); }
    if b.items != [] { FirstChar(b.items[0]); PrintAllTail(b.items); }
    ListStarts(p, "]" + x);
    ListStarts(q, "]" + y);
    if a.items == [] {
      Cut("]", x, "]", y);
    } else {
      MoreEnds(p[1..], "]" + x);
      MoreEnds(q[1..], "]" + y);
      Unique(a.items[0], b.items[0], More(p[1..], "]" + x), More(q[1..], "]" + y));
      MoreItems(a, a.items[1..], b.items[1..], x, y);
      assert a.items == [a.items[0]] + a.items[1..] && b.items == [b.items[0]] + b.items[1..];
    }
  }

  lemma {:induction false} ListFields(a: Json, b: Json, x: string, y: string)
    requires a.Obj? && b.Obj? && WellFormed(a) && WellFormed(b)
    requires List(PrintFields(a.fields), "}" + x) == List(PrintFields(b.fields), "}" + y)
    ensures a == b && x == y
    decreases a, 0, |a.fields|
  {
    var p, q := PrintFields(a.fields), PrintFields(b.fields);
    if a.fields != [] { PrintFieldsTail(a.fields); }
    if b.fields != [] { PrintFieldsTail(b.fields); }
    ListStarts(p, "}" + x);
    ListStarts(q, "}" + y);
    if a.fields == [] {
      Cut("}", x, "}", y);
    } else {
      FieldFirst(a, a.fields, b.fields, x, y);
      MoreFields(a, a.fields[1..], b.fields[1..], x, y);
      assert a.fields == [a.fields[0]] + a.fields[1..] && b.fields == [b.fields[0]] + b.fields[1..];
    }
  }

  /** Two texts that begin with values, and go on as inside a text, begin with the same value. */
  lemma {:induction false} Unique(a: Json, b: Json, x: string, y: string)
    requires WellFormed(a) && WellFormed(b) && Ends(x) && Ends(y) && Print(a) + x == Print(b) + y
    ensures a == b && x == y
    decreases a, 1, 0
  {
    FirstChar(a);
    FirstChar(b);
    assert (Print(a) + x)[0] == Print(a)[0] && (Print(b) + y)[0] == Print(b)[0];
    match a
    case Scalar(text) => ScalarUnique(text, b.text, x, y);
    case Text(chars) => QuotedUnique(chars, b.chars, x, y);
    case Arr(items) =>
      ListCut("[", PrintAll(items), PrintAll(b.items), "]", x, y);
      ListItems(a, b, x, y);
    case Obj(fields) =>
      PrintParts(a);
      PrintParts(b);
      ListCut("{", PrintFields(fields), PrintFields(b.fields), "}", x, y);
      ListFields(a, b, x, y);
  }

  lemma ListCut(open: string, p: seq<string>, q: seq<string>, close: string, x: string, y: string)
    requires open + List(p, close) + x == open + List(q, close) + y
    ensures List(p, close + x) == List(q, close + y)
  {
    ListAppend(p, close, x);
    ListAppend(q, close, y);
    assert open + List(p, close) + x == open + (List(p, close) + x) && open + List(q, close) + y == open + (List(q, close) + y);
    Cut(open, List(p, close) + x, open, List(q, close) + y);
  }

  /** The text of a value determines it. */
  lemma PrintInjective(a: Json, b: Json)
    requires WellFormed(a) && WellFormed(b)
    ensures Print(a) == Print(b) <==> a == b
  {
    if Print(a) == Print(b) {
      assert Print(a) + "" == Print(a) && Print(b) + "" == Print(b);
      Unique(a, b, "", "");
    }
  }

  // ---- the text itself ----

  /**
   The quote, the backslash and five control characters have short forms, other control characters four lower-case
   hexadecimal digits, and all other characters stand for themselves.
   */
  lemma EscapedSays(c: char)
    ensures Escaped('"') == ['\\', '"'] && Escaped('\\') == ['\\', '\\']
    ensures c as int >= 32 && c != '"' && c != '\\' ==> Escaped(c) == [c]
    ensures Escaped('\t') == ['\\', 't'] && Escaped('\n') == ['\\', 'n'] && Escaped('\r') == ['\\', 'r']
    ensures c as int == 8 ==> Escaped(c) == ['\\', 'b']
    ensures c as int == 12 ==> Escaped(c) == ['\\', 'f']
    ensures c as int < 32 && c as int !in {8, 9, 10, 12, 13} ==>
      Escaped(c) == ['\\', 'u', '0', '0', "0123456789abcdef"[c as int / 16], "0123456789abcdef"[c as int % 16]]
  {
    assert Escaped('\t') == "\\t" && Escaped('\n') == "\\n" && Escaped('\r') == "\\r";
    if c as int < 32 {
      HexSays(c as int / 16);
      HexSays(c as int % 16);
    }
  }

  lemma HexSays(n: nat)
    requires n < 16
    ensures HexDigit(n) == "0123456789abcdef"[n]
  {
  }

  lemma EmptySays(s: string)
    ensures Print(Arr([])) == "[]" && Print(Obj([])) == "{}" && Print(Text(s)) == "\"" + (Escape(s) + "\"")
  {
  }

  /** An array of two, with brackets and a comma and no space. */
  lemma ArraySays(a: Json, b: Json)
    ensures Print(Arr([a, b])) == "[" + (Print(a) + ("," + (Print(b) + "]")))
  {
    hide Print, List;
    PrintTwo(Print(a), Print(b), "]");
    PrintParts(Arr([a, b]));
    assert PrintAll([a, b]) == [Print(a), Print(b)];
  }

  /** An object of two fields, each name quoted before its value. */
  lemma ObjectSays(a: Json, b: Json, k: string, l: string)
    ensures Print(Obj([(k, a), (l, b)]))
         == "{" + ((Quoted(k) + (":" + Print(a))) + ("," + ((Quoted(l) + (":" + Print(b))) + "}")))
  {
    hide Print, List, Quoted;
    PrintTwo(PrintField((k, a)), PrintField((l, b)), "}");
    PrintParts(Obj([(k, a), (l, b)]));
    assert PrintFields([(k, a), (l, b)]) == [PrintField((k, a)), PrintField((l, b))];
  }

  lemma PrintTwo(x: string, y: string, close: string)
    ensures List([x, y], close) == x + ("," + (y + close))
  {
    assert [x, y][1..] == [y] && [y][1..] == [];
    assert More([y], close) == "," + (y + More([], close));
  }
}
