/** A JavaScript `Map` with string keys: entries in insertion order; setting a present key keeps its place. */
module OrderedMap {
  import opened Text

  type Entries<V> = seq<(string, V)>

  function Keys<V>(m: Entries<V>): set<string> {
    set i | 0 <= i < |m| :: m[i].0
  }

  ghost predicate Distinct<V>(m: Entries<V>) {
    forall i, j :: 0 <= i < j < |m| ==> m[i].0 != m[j].0
  }

  function Get<V>(m: Entries<V>, k: string): Option<V> {
    if m == [] then None
    else if m[0].0 == k then Some(m[0].1)
    else Get(m[1..], k)
  }

  function Put<V>(m: Entries<V>, k: string, v: V): Entries<V> {
    if m == [] then [(k, v)]
    else if m[0].0 == k then [(k, v)] + m[1..]
    else [m[0]] + Put(m[1..], k, v)
  }

  /** Sets every pair of `more` in order. */
  function PutAll<V>(m: Entries<V>, more: Entries<V>): Entries<V>
    decreases |more|
  {
    if more == [] then m
    else PutAll(Put(m, more[0].0, more[0].1), more[1..])
  }

  lemma {:induction false} PutGet<V>(m: Entries<V>, k: string, v: V, q: string)
    ensures Get(Put(m, k, v), q) == if q == k then Some(v) else Get(m, q)
  {
    if m != [] && m[0].0 != k {
      PutGet(m[1..], k, v, q);
      assert Put(m, k, v)[1..] == Put(m[1..], k, v);
    } else if m != [] {
      assert Put(m, k, v)[1..] == m[1..];
    }
  }

  lemma {:induction false} PutShape<V>(m: Entries<V>, k: string, v: V)
    ensures k in Keys(m) ==> |Put(m, k, v)| == |m| && forall i :: 0 <= i < |m| ==> Put(m, k, v)[i].0 == m[i].0
    ensures k !in Keys(m) ==> Put(m, k, v) == m + [(k, v)]
  {
    if m != [] {
      KeysCons(m);
      if m[0].0 != k {
        PutShape(m[1..], k, v);
        assert m == [m[0]] + m[1..];
      }
    }
  }

  lemma AppendKeys<V>(m: Entries<V>, k: string, v: V)
    ensures Keys(m + [(k, v)]) == Keys(m) + {k}
    ensures Distinct(m) && k !in Keys(m) ==> Distinct(m + [(k, v)])
  {
    var r := m + [(k, v)];
    assert r[|m|].0 == k;
    forall q | q in Keys(m) ensures q in Keys(r) {
      var i :| 0 <= i < |m| && m[i].0 == q;
      assert r[i].0 == q;
    }
  }

  lemma PutKeys<V>(m: Entries<V>, k: string, v: V)
    requires Distinct(m)
    ensures Distinct(Put(m, k, v))
    ensures Keys(Put(m, k, v)) == Keys(m) + {k}
    ensures k in Keys(m) ==> |Put(m, k, v)| == |m| && forall i :: 0 <= i < |m| ==> Put(m, k, v)[i].0 == m[i].0
    ensures k !in Keys(m) ==> Put(m, k, v) == m + [(k, v)]
  {
    PutShape(m, k, v);
    if k in Keys(m) {
    } else {
      AppendKeys(m, k, v);
    }
  }

  lemma KeysCons<V>(m: Entries<V>)
    requires m != []
    ensures Keys(m) == {m[0].0} + Keys(m[1..])
  {
  }

  lemma {:induction false} GetKeys<V>(m: Entries<V>, k: string)
    ensures Get(m, k).Some? <==> k in Keys(m)
  {
    if m != [] {
      GetKeys(m[1..], k);
      KeysCons(m);
    }
  }

  lemma {:induction false} GetAt<V>(m: Entries<V>, i: nat)
    requires Distinct(m) && i < |m|
    ensures Get(m, m[i].0) == Some(m[i].1)
  {
    if i > 0 {
      assert m[1..][i - 1] == m[i];
      GetAt(m[1..], i - 1);
    }
  }

  lemma {:induction false} PutAllDistinct<V>(m: Entries<V>, more: Entries<V>)
    requires Distinct(m)
    ensures Distinct(PutAll(m, more)) && Keys(PutAll(m, more)) == Keys(m) + Keys(more)
    decreases |more|
  {
    if more != [] {
      PutKeys(m, more[0].0, more[0].1);
      PutAllDistinct(Put(m, more[0].0, more[0].1), more[1..]);
      KeysCons(more);
    }
  }

  /** Setting pairs whose keys are all new and distinct appends them. */
  lemma {:induction false} PutAllFresh<V>(m: Entries<V>, more: Entries<V>)
    requires Distinct(m + more)
    ensures PutAll(m, more) == m + more
    decreases |more|
  {
    if more == [] {
      assert m + more == m;
    } else {
      var k, v := more[0].0, more[0].1;
      assert (m + more)[|m|].0 == k;
      assert k !in Keys(m) by {
        forall i | 0 <= i < |m| ensures m[i].0 != k { assert (m + more)[i] == m[i]; }
      }
      assert Distinct(m) by {
        forall i, j | 0 <= i < j < |m| ensures m[i].0 != m[j].0 {
          assert (m + more)[i] == m[i] && (m + more)[j] == m[j];
        }
      }
      PutKeys(m, k, v);
      assert (m + [(k, v)]) + more[1..] == m + more;
      PutAllFresh(m + [(k, v)], more[1..]);
    }
  }

  lemma {:induction false} PutAllAppend<V>(m: Entries<V>, a: Entries<V>, b: Entries<V>)
    ensures PutAll(m, a + b) == PutAll(PutAll(m, a), b)
    decreases |a|
  {
    if a == [] {
      assert a + b == b;
    } else {
      assert (a + b)[1..] == a[1..] + b;
      PutAllAppend(Put(m, a[0].0, a[0].1), a[1..], b);
    }
  }

  /** Two ordered maps hold the same associations, whatever the order. */
  ghost predicate SameMap<V>(a: Entries<V>, b: Entries<V>) {
    forall k :: Get(a, k) == Get(b, k)
  }
}
