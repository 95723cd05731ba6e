/** Sorting entries by key: the result depends on the associations only, not on their order. */
module Sorting {
  import opened Text
  import opened OrderedMap

  /** Lexicographic order on strings. */
  predicate Before(a: string, b: string) {
    if a == "" then b != ""
    else b != "" && (a[0] < b[0] || (a[0] == b[0] && Before(a[1..], b[1..])))
  }

  function Insert<V>(m: Entries<V>, e: (string, V)): Entries<V> {
    if m == [] || Before(e.0, m[0].0) then [e] + m else [m[0]] + Insert(m[1..], e)
  }

  function SortByKey<V>(m: Entries<V>): Entries<V> {
    if m == [] then [] else Insert(SortByKey(m[1..]), m[0])
  }

  ghost predicate Sorted<V>(m: Entries<V>) {
    forall i, j :: 0 <= i < j < |m| ==> Before(m[i].0, m[j].0)
  }

  lemma {:induction false} BeforeTotal(a: string, b: string)
    ensures a == b || Before(a, b) || Before(b, a)
    ensures !(Before(a, b) && Before(b, a)) && !Before(a, a)
  {
    if a != "" && b != "" && a[0] == b[0] {
      BeforeTotal(a[1..], b[1..]);
      assert a == [a[0]] + a[1..] && b == [b[0]] + b[1..];
    }
    if a != "" { BeforeTotal(a[1..], a[1..]); }
  }

  lemma {:induction false} BeforeTransitive(a: string, b: string, c: string)
    requires Before(a, b) && Before(b, c)
    ensures Before(a, c)
  {
    if a != "" && a[0] == b[0] == c[0] { BeforeTransitive(a[1..], b[1..], c[1..]); }
  }

  lemma {:induction false} InsertKeys<V>(m: Entries<V>, e: (string, V))
    requires e.0 !in Keys(m)
    ensures Keys(Insert(m, e)) == Keys(m) + {e.0}
    ensures forall k :: Get(Insert(m, e), k) == if k == e.0 then Some(e.1) else Get(m, k)
  {
    var r := Insert(m, e);
    KeysCons(r);
    if m == [] || Before(e.0, m[0].0) {
      assert r[1..] == m;
    } else {
      KeysCons(m);
      InsertKeys(m[1..], e);
      assert r[1..] == Insert(m[1..], e);
    }
  }

  lemma FirstIsLeast<V>(m: Entries<V>)
    requires m != [] && Sorted(m)
    ensures Sorted(m[1..]) && forall k :: k in Keys(m[1..]) ==> Before(m[0].0, k)
  {
  }

  lemma {:induction false} InsertSorted<V>(m: Entries<V>, e: (string, V))
    requires Sorted(m) && e.0 !in Keys(m)
    ensures Sorted(Insert(m, e))
  {
    var r := Insert(m, e);
    if m != [] {
      FirstIsLeast(m);
      KeysCons(m);
      BeforeTotal(e.0, m[0].0);
      if Before(e.0, m[0].0) {
        assert r[1..] == m;
        forall k | k in Keys(m) ensures Before(e.0, k) {
          if k != m[0].0 { BeforeTransitive(e.0, m[0].0, k); }
        }
      } else {
        assert r[1..] == Insert(m[1..], e);
        InsertSorted(m[1..], e);
        InsertKeys(m[1..], e);
      }
    }
  }

  lemma {:induction false} SortKeeps<V>(m: Entries<V>)
    requires Distinct(m)
    ensures Sorted(SortByKey(m)) && Keys(SortByKey(m)) == Keys(m) && SameMap(SortByKey(m), m)
  {
    if m != [] {
      assert Distinct(m[1..]) by {
        assert forall i :: 0 <= i < |m[1..]| ==> m[1..][i] == m[i + 1];
      }
      SortKeeps(m[1..]);
      KeysCons(m);
      assert m[0].0 !in Keys(m[1..]);
      InsertSorted(SortByKey(m[1..]), m[0]);
      InsertKeys(SortByKey(m[1..]), m[0]);
    }
  }

  lemma SortedDistinct<V>(m: Entries<V>)
    requires Sorted(m)
    ensures Distinct(m)
  {
    forall i, j | 0 <= i < j < |m| ensures m[i].0 != m[j].0 { BeforeTotal(m[i].0, m[j].0); }
  }

  lemma HeadOfSorted<V>(a: Entries<V>, b: Entries<V>)
    requires a != [] && Sorted(a) && Sorted(b) && SameMap(a, b)
    ensures b != [] && (a[0].0 == b[0].0 || Before(b[0].0, a[0].0))
  {
    assert Get(a, a[0].0).Some?;
    GetKeys(b, a[0].0);
    var j :| 0 <= j < |b| && b[j].0 == a[0].0;
    if j > 0 { assert Before(b[0].0, b[j].0); }
  }

  lemma TailGet<V>(m: Entries<V>, k: string)
    requires m != [] && Distinct(m)
    ensures Get(m[1..], k) == if k == m[0].0 then None else Get(m, k)
  {
    KeysCons(m);
    GetKeys(m[1..], k);
    forall i | 0 <= i < |m[1..]| ensures m[1..][i].0 != m[0].0 { assert m[1..][i] == m[i + 1]; }
  }

  lemma {:induction false} SortedUnique<V>(a: Entries<V>, b: Entries<V>)
    requires Sorted(a) && Sorted(b) && SameMap(a, b)
    ensures a == b
  {
    if a != [] {
      HeadOfSorted(a, b);
      HeadOfSorted(b, a);
      BeforeTotal(a[0].0, b[0].0);
      SortedDistinct(a);
      SortedDistinct(b);
      assert Get(a, a[0].0) == Get(b, a[0].0);
      forall k ensures Get(a[1..], k) == Get(b[1..], k) {
        TailGet(a, k);
        TailGet(b, k);
      }
      assert Sorted(a[1..]) && Sorted(b[1..]);
      SortedUnique(a[1..], b[1..]);
      assert a == [a[0]] + a[1..] && b == [b[0]] + b[1..];
    } else if b != [] {
      HeadOfSorted(b, a);
    }
  }

  /** Two maps with the same associations sort to the same list, whatever order they were filled in. */
  lemma SortCanonical<V>(a: Entries<V>, b: Entries<V>)
    requires Distinct(a) && Distinct(b) && SameMap(a, b)
    ensures SortByKey(a) == SortByKey(b)
  {
    SortKeeps(a);
    SortKeeps(b);
    SortedUnique(SortByKey(a), SortByKey(b));
  }

  /** The order by the first difference, shorter texts before their continuations. */
  lemma {:induction false} BeforeExactly(a: string, b: string)
    ensures Before(a, b) <==> a != b && (a <= b || exists i :: FirstDifference(a, b, i))
  {
    if a != "" && b != "" && a[0] == b[0] {
      BeforeExactly(a[1..], b[1..]);
      assert a == [a[0]] + a[1..] && b == [b[0]] + b[1..];
      forall i | FirstDifference(a[1..], b[1..], i) ensures FirstDifference(a, b, i + 1) {
        assert forall j :: 0 <= j <= i ==> a[1..][j] == a[j + 1] && b[1..][j] == b[j + 1];
      }
      forall i | FirstDifference(a, b, i) ensures FirstDifference(a[1..], b[1..], i - 1) {
        assert i > 0;
      }
    } else if a != "" && b != "" {
      assert FirstDifference(a, b, 0) <==> a[0] < b[0];
    }
  }

  predicate FirstDifference(a: string, b: string, i: int) {
    0 <= i < |a| && i < |b| && a[i] < b[i] && forall j :: 0 <= j < i ==> a[j] == b[j]
  }
}
