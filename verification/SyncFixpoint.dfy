/** A written sync is a fixpoint: the next run over the same source finds nothing to do. */
module SyncFixpoint {
  import opened Text
  import opened OrderedMap
  import opened LocaleTree
  import opened Sorting
  import opened SyncLocale
  import B = Batches
  import T = Translate

  /** Cache keys are hashes: never empty, and under one provider and model different for different keys. */
  ghost predicate GoodKeys(env: Setting) {
    && (forall k, h :: CacheKey(env, k, h) != "")
    && (forall k, h, k', h' :: CacheKey(env, k, h) == CacheKey(env, k', h') ==> k == k')
  }

  // ---- the memory ----

  ghost predicate MemoryOk(m: Memory) {
    Distinct(m) && forall i :: 0 <= i < |m| ==> m[i].1.cacheKey == m[i].0 && Usable(m[i].1)
  }

  lemma PutMemoryOk(m: Memory, c: string, e: TmEntry)
    requires MemoryOk(m) && e.cacheKey == c && Usable(e)
    ensures MemoryOk(Put(m, c, e))
  {
    var r := Put(m, c, e);
    PutKeys(m, c, e);
    forall i | 0 <= i < |r| ensures r[i].1.cacheKey == r[i].0 && Usable(r[i].1) {
      GetAt(r, i);
      PutGet(m, c, e, r[i].0);
      if r[i].0 != c {
        GetKeys(m, r[i].0);
        var j :| 0 <= j < |m| && m[j].0 == r[i].0;
        GetAt(m, j);
      }
    }
  }

  lemma {:induction false} LoadMemoryOk(lines: seq<TmEntry>)
    ensures MemoryOk(LoadMemory(lines))
    decreases |lines|
  {
    if lines != [] {
      var n := |lines| - 1;
      LoadMemoryOk(lines[..n]);
      if Usable(lines[n]) { PutMemoryOk(LoadMemory(lines[..n]), lines[n].cacheKey, lines[n]); }
    }
  }

  lemma {:induction false} LoadValues(m: Memory)
    requires MemoryOk(m)
    ensures LoadMemory(Values(m)) == m
    decreases |m|
  {
    if m != [] {
      var n := |m| - 1;
      assert Values(m)[..n] == Values(m[..n]);
      LoadValues(m[..n]);
      assert m[n].0 !in Keys(m[..n]);
      PutKeys(m[..n], m[n].0, m[n].1);
      assert m == m[..n] + [m[n]];
    }
  }

  /** Writing the memory and reading it back keeps every association. */
  lemma SaveLoad(m: Memory)
    requires MemoryOk(m)
    ensures MemoryOk(LoadMemory(SaveMemory(m))) && SameMap(LoadMemory(SaveMemory(m)), m)
    ensures SaveMemory(LoadMemory(SaveMemory(m))) == SaveMemory(m)
  {
    var s := SortByKey(m);
    SortKeeps(m);
    SortedDistinct(s);
    forall i | 0 <= i < |s| ensures s[i].1.cacheKey == s[i].0 && Usable(s[i].1) {
      GetAt(s, i);
      GetKeys(m, s[i].0);
      var j :| 0 <= j < |m| && m[j].0 == s[i].0;
      GetAt(m, j);
    }
    LoadValues(s);
    SortCanonical(s, m);
  }

  /** Some entry of the memory answers to the text hash. */
  ghost predicate HasHash(m: Memory, locale: string, h: string) {
    exists c :: Get(m, c).Some? && Eligible(Get(m, c).value, locale, h)
  }

  lemma {:induction false} ByTextHashEligible(m: Memory, locale: string, h: string)
    requires Distinct(m)
    ensures ByTextHash(m, locale, h).Some? ==> Eligible(ByTextHash(m, locale, h).value, locale, h)
    ensures ByTextHash(m, locale, h).Some? <==> HasHash(m, locale, h)
    decreases |m|
  {
    if m != [] {
      var n := |m| - 1;
      GetLast(m, m[n].0);
      ByTextHashEligible(m[..n], locale, h);
      if Eligible(m[n].1, locale, h) {
        assert Get(m, m[n].0).Some?;
      } else {
        if HasHash(m[..n], locale, h) {
          var c :| Get(m[..n], c).Some? && Eligible(Get(m[..n], c).value, locale, h);
          GetLast(m, c);
          GetKeys(m[..n], c);
          assert m[n].0 !in Keys(m[..n]);
          assert Get(m, c).Some?;
        }
        if HasHash(m, locale, h) {
          var c :| Get(m, c).Some? && Eligible(Get(m, c).value, locale, h);
          GetLast(m, c);
          assert Get(m[..n], c).Some?;
        }
      }
    }
  }

  // ---- what the first run leaves behind ----

  /** The key has its next value; a memory entry for it agrees; a fallback is one that will recur. */
  ghost predicate KeyDone(env: Setting, allow: bool, stores: Stores, plan: Plan, k: string, t: string) {
    var c := CacheKeyOf(env, k, t);
    && Get(plan.next, k).Some?
    && (Get(plan.memory, c).Some? ==> Get(plan.memory, c).value.translated == Get(plan.next, k).value)
    && (Get(plan.fallback, k).Some? ==>
          !allow && (Get(plan.memory, c).Some? || !HasHash(stores.memory, env.locale, env.hashText(t))))
  }

  /** The key still waits for a translation or a fallback. */
  ghost predicate KeyOpen(env: Setting, allow: bool, stores: Stores, plan: Plan, k: string, t: string) {
    && Get(plan.next, k).None? && Get(plan.fallback, k).None?
    && (!allow ==>
          && Get(plan.memory, CacheKeyOf(env, k, t)).None? && Get(stores.existing, k).None?
          && !HasHash(stores.memory, env.locale, env.hashText(t)))
  }

  ghost predicate Progress(env: Setting, allow: bool, stores: Stores, source: Entries<string>, plan: Plan, open: set<string>) {
    && MemoryOk(plan.memory) && Distinct(plan.fallback)
    && (forall i :: 0 <= i < |source| ==>
          if source[i].0 in open then KeyOpen(env, allow, stores, plan, source[i].0, source[i].1)
          else KeyDone(env, allow, stores, plan, source[i].0, source[i].1))
    && (!allow ==> forall h :: HasHash(plan.memory, env.locale, h) ==> HasHash(stores.memory, env.locale, h))
    && Keys(plan.fallback) <= Keys(source)
  }

  /** The plans agree but for what concerns key k. */
  ghost predicate OnlyAt(plan: Plan, plan': Plan, k: string, c: string) {
    && (forall q :: q != k ==> Get(plan'.next, q) == Get(plan.next, q) && Get(plan'.fallback, q) == Get(plan.fallback, q))
    && (forall d :: d != c ==> Get(plan'.memory, d) == Get(plan.memory, d))
  }

  /** Setting an entry whose text hash the memory already knew adds no text hash. */
  lemma CopyAddsNoHash(m: Memory, base: Memory, locale: string, c: string, e: TmEntry)
    requires HasHash(base, locale, e.textHash)
    requires forall h :: HasHash(m, locale, h) ==> HasHash(base, locale, h)
    ensures forall h :: HasHash(Put(m, c, e), locale, h) ==> HasHash(base, locale, h)
  {
    forall h | HasHash(Put(m, c, e), locale, h) ensures HasHash(base, locale, h) {
      var d :| Get(Put(m, c, e), d).Some? && Eligible(Get(Put(m, c, e), d).value, locale, h);
      PutGet(m, c, e, d);
      if d != c { assert HasHash(m, locale, h); }
    }
  }

  lemma FallbackPut(m: KeySet, k: string)
    requires Distinct(m)
    ensures Distinct(Put(m, k, ())) && Keys(Put(m, k, ())) == Keys(m) + {k}
    ensures forall q :: Get(Put(m, k, ()), q) == if q == k then Some(()) else Get(m, q)
  {
    PutKeys(m, k, ());
    forall q { PutGet(m, k, (), q); }
  }

  ghost predicate ItemOk(env: Setting, item: B.Item) {
    item.cacheKey == CacheKeyOf(env, item.key, item.text) && item.textHash == env.hashText(item.text)
  }

  // ---- first loop: the decision table ----

  ghost predicate Untouched(env: Setting, stores: Stores, plan: Plan, k: string, t: string) {
    && Get(plan.next, k).None? && Get(plan.fallback, k).None?
    && Get(plan.memory, CacheKeyOf(env, k, t)) == Get(stores.memory, CacheKeyOf(env, k, t))
  }

  lemma PlanKeyOnlyAt(env: Setting, allow: bool, stores: Stores, plan: Plan, k: string, t: string)
    ensures OnlyAt(plan, PlanKey(env, allow, stores, plan, k, t), k, CacheKeyOf(env, k, t))
  {
    var plan' := PlanKey(env, allow, stores, plan, k, t);
    var c := CacheKeyOf(env, k, t);
    forall q | q != k ensures Get(plan'.next, q) == Get(plan.next, q) && Get(plan'.fallback, q) == Get(plan.fallback, q) {
      if Get(plan.memory, c).Some? { PutGet(plan.next, k, Get(plan.memory, c).value.translated, q); }
      if ByTextHash(stores.memory, env.locale, env.hashText(t)).Some? {
        PutGet(plan.next, k, ByTextHash(stores.memory, env.locale, env.hashText(t)).value.translated, q);
      }
      if Get(stores.existing, k).Some? { PutGet(plan.next, k, Get(stores.existing, k).value, q); }
      PutGet(plan.fallback, k, (), q);
    }
    forall d | d != c ensures Get(plan'.memory, d) == Get(plan.memory, d) {
      if ByTextHash(stores.memory, env.locale, env.hashText(t)).Some? {
        PutGet(plan.memory, c, Copied(ByTextHash(stores.memory, env.locale, env.hashText(t)).value, c, k, env), d);
      }
    }
  }

  /** The key just decided is done, or it was added to the pending ones and is open. */
  lemma PlanKeyDecides(env: Setting, allow: bool, stores: Stores, plan: Plan, k: string, t: string)
    requires Untouched(env, stores, plan, k, t) && MemoryOk(stores.memory)
    ensures var plan' := PlanKey(env, allow, stores, plan, k, t);
      if plan'.pending == plan.pending then KeyDone(env, allow, stores, plan', k, t)
      else
        && plan'.pending == plan.pending + [B.Item(CacheKeyOf(env, k, t), k, t, env.hashText(t))]
        && KeyOpen(env, allow, stores, plan', k, t)
  {
    var plan' := PlanKey(env, allow, stores, plan, k, t);
    var c := CacheKeyOf(env, k, t);
    var cached := Get(plan.memory, c);
    var byText := ByTextHash(stores.memory, env.locale, env.hashText(t));
    ByTextHashEligible(stores.memory, env.locale, env.hashText(t));
    PutGet(plan.fallback, k, (), k);
    if cached.Some? && !(allow && k in stores.previous) {
      PutGet(plan.next, k, cached.value.translated, k);
    } else if byText.Some? && (k in stores.previous || Get(stores.existing, k).None?) {
      PutGet(plan.next, k, byText.value.translated, k);
      PutGet(plan.memory, c, Copied(byText.value, c, k, env), c);
    } else if Get(stores.existing, k).Some? && !(allow && k in stores.previous) {
      PutGet(plan.next, k, Get(stores.existing, k).value, k);
    }
  }

  lemma PlanKeyMemory(env: Setting, allow: bool, stores: Stores, plan: Plan, k: string, t: string)
    requires GoodKeys(env) && MemoryOk(stores.memory) && MemoryOk(plan.memory) && Distinct(plan.fallback)
    requires forall h :: HasHash(plan.memory, env.locale, h) ==> HasHash(stores.memory, env.locale, h)
    ensures var plan' := PlanKey(env, allow, stores, plan, k, t);
      && MemoryOk(plan'.memory) && Distinct(plan'.fallback) && Keys(plan'.fallback) <= Keys(plan.fallback) + {k}
      && (forall h :: HasHash(plan'.memory, env.locale, h) ==> HasHash(stores.memory, env.locale, h))
  {
    var h := env.hashText(t);
    var c := CacheKeyOf(env, k, t);
    FallbackPut(plan.fallback, k);
    ByTextHashEligible(stores.memory, env.locale, h);
    if ByTextHash(stores.memory, env.locale, h).Some? {
      var e := Copied(ByTextHash(stores.memory, env.locale, h).value, c, k, env);
      PutMemoryOk(plan.memory, c, e);
      CopyAddsNoHash(plan.memory, stores.memory, env.locale, c, e);
    }
  }

  ghost predicate Planned(env: Setting, allow: bool, stores: Stores, source: Entries<string>, plan: Plan) {
    && Progress(env, allow, stores, source, plan, T.KeysOf(plan.pending))
    && (forall h :: HasHash(plan.memory, env.locale, h) ==> HasHash(stores.memory, env.locale, h))
    && ItemsOk(env, source, plan.pending) && DistinctKeys(plan.pending)
    && (forall k, t :: k !in Keys(source) ==> Untouched(env, stores, plan, k, t))
  }

  lemma PendingAppend(items: B.Batch, item: B.Item)
    ensures T.KeysOf(items + [item]) == T.KeysOf(items) + {item.key}
  {
    assert forall i :: 0 <= i < |items| ==> (items + [item])[i] == items[i];
    assert (items + [item])[|items|] == item;
    forall k | k in T.KeysOf(items) + {item.key} ensures k in T.KeysOf(items + [item]) {
      if k in T.KeysOf(items) {
        var i :| 0 <= i < |items| && items[i].key == k;
        assert (items + [item])[i].key == k;
      }
    }
  }

  lemma {:induction false} PlanProgress(env: Setting, allow: bool, stores: Stores, source: Entries<string>)
    requires GoodKeys(env) && Distinct(source) && MemoryOk(stores.memory)
    ensures Planned(env, allow, stores, source, PlanKeys(env, allow, stores, source))
    decreases |source|
  {
    if source != [] {
      var n := |source| - 1;
      var k, t := source[n].0, source[n].1;
      GetLast(source, k);
      PlanProgress(env, allow, stores, source[..n]);
      assert k !in Keys(source[..n]);
      assert source == source[..n] + [(k, t)];
      PlanKeyPlanned(env, allow, stores, source[..n], PlanKeys(env, allow, stores, source[..n]), k, t);
    }
  }

  lemma PlanKeyProgress(env: Setting, allow: bool, stores: Stores, source: Entries<string>, plan: Plan, k: string, t: string)
    requires GoodKeys(env) && MemoryOk(stores.memory)
    requires Planned(env, allow, stores, source, plan) && k !in Keys(source)
    ensures var plan' := PlanKey(env, allow, stores, plan, k, t);
      Progress(env, allow, stores, source + [(k, t)], plan', T.KeysOf(plan'.pending))
  {
    var plan' := PlanKey(env, allow, stores, plan, k, t);
    var open := T.KeysOf(plan.pending);
    var source' := source + [(k, t)];
    assert Untouched(env, stores, plan, k, t);
    PlanKeyOnlyAt(env, allow, stores, plan, k, t);
    PlanKeyDecides(env, allow, stores, plan, k, t);
    PlanKeyMemory(env, allow, stores, plan, k, t);
    AppendKeys(source, k, t);
    if plan'.pending != plan.pending {
      PendingAppend(plan.pending, B.Item(CacheKeyOf(env, k, t), k, t, env.hashText(t)));
    }
    forall i | 0 <= i < |source'|
      ensures if source'[i].0 in T.KeysOf(plan'.pending) then KeyOpen(env, allow, stores, plan', source'[i].0, source'[i].1)
        else KeyDone(env, allow, stores, plan', source'[i].0, source'[i].1)
    {
      if i < |source| {
        assert source'[i] == source[i];
        assert source[i].0 in Keys(source);
      }
    }
  }

  lemma PlanKeyPlanned(env: Setting, allow: bool, stores: Stores, source: Entries<string>, plan: Plan, k: string, t: string)
    requires GoodKeys(env) && MemoryOk(stores.memory)
    requires Planned(env, allow, stores, source, plan) && k !in Keys(source)
    ensures Planned(env, allow, stores, source + [(k, t)], PlanKey(env, allow, stores, plan, k, t))
  {
    var plan' := PlanKey(env, allow, stores, plan, k, t);
    var source' := source + [(k, t)];
    PlanKeyProgress(env, allow, stores, source, plan, k, t);
    PlanKeyMemory(env, allow, stores, plan, k, t);
    PlanKeyOnlyAt(env, allow, stores, plan, k, t);
    AppendKeys(source, k, t);
    PlanKeyItems(env, allow, stores, source, plan, k, t);
    forall q, u | q !in Keys(source') ensures Untouched(env, stores, plan', q, u) {
      assert Untouched(env, stores, plan, q, u);
      assert CacheKeyOf(env, q, u) != CacheKeyOf(env, k, t);
    }
  }

  lemma PlanKeyItems(env: Setting, allow: bool, stores: Stores, source: Entries<string>, plan: Plan, k: string, t: string)
    requires ItemsOk(env, source, plan.pending) && DistinctKeys(plan.pending) && k !in Keys(source)
    ensures var plan' := PlanKey(env, allow, stores, plan, k, t);
      ItemsOk(env, source + [(k, t)], plan'.pending) && DistinctKeys(plan'.pending)
  {
  }

  // ---- the translated batches ----

  ghost predicate ItemsOk(env: Setting, source: Entries<string>, items: B.Batch) {
    forall j :: 0 <= j < |items| ==> ItemOk(env, items[j]) && (items[j].key, items[j].text) in source
  }

  /** Replacing the next value, the memory entry and the fallback mark of one open key closes it. */
  lemma CloseKey(env: Setting, allow: bool, stores: Stores, source: Entries<string>, plan: Plan, plan': Plan,
                 open: set<string>, item: B.Item)
    requires GoodKeys(env) && Distinct(source) && Progress(env, allow, stores, source, plan, open)
    requires (item.key, item.text) in source
    requires OnlyAt(plan, plan', item.key, CacheKeyOf(env, item.key, item.text))
    requires KeyDone(env, allow, stores, plan', item.key, item.text)
    requires MemoryOk(plan'.memory) && Distinct(plan'.fallback) && Keys(plan'.fallback) <= Keys(plan.fallback) + {item.key}
    requires !allow ==> plan'.memory == plan.memory
    ensures Progress(env, allow, stores, source, plan', open - {item.key})
  {
  }

  lemma ApplyItem(env: Setting, now: string, stores: Stores, source: Entries<string>, plan: Plan, open: set<string>,
                  item: B.Item, value: string)
    requires GoodKeys(env) && Distinct(source) && Progress(env, true, stores, source, plan, open)
    requires ItemOk(env, item) && (item.key, item.text) in source && !Blank(value)
    requires item.key in open
    ensures Progress(env, true, stores, source,
      plan.(next := Put(plan.next, item.key, value),
            memory := Put(plan.memory, item.cacheKey, Entry(env, now, item, value))), open - {item.key})
  {
    var e := Entry(env, now, item, value);
    var plan' := plan.(next := Put(plan.next, item.key, value), memory := Put(plan.memory, item.cacheKey, e));
    PutMemoryOk(plan.memory, item.cacheKey, e);
    forall q ensures Get(plan'.next, q) == if q == item.key then Some(value) else Get(plan.next, q) {
      PutGet(plan.next, item.key, value, q);
    }
    forall d ensures Get(plan'.memory, d) == if d == item.cacheKey then Some(e) else Get(plan.memory, d) {
      PutGet(plan.memory, item.cacheKey, e, d);
    }
    var j :| 0 <= j < |source| && source[j] == (item.key, item.text);
    assert KeyOpen(env, true, stores, plan, source[j].0, source[j].1);
    CloseKey(env, true, stores, source, plan, plan', open, item);
  }

  lemma {:induction false} ApplyProgress(env: Setting, now: string, stores: Stores, source: Entries<string>, plan: Plan,
                                         open: set<string>, batch: B.Batch, m: map<string, string>)
    requires GoodKeys(env) && Distinct(source) && Progress(env, true, stores, source, plan, open)
    requires ItemsOk(env, source, batch) && T.KeysOf(batch) <= open && DistinctKeys(batch)
    requires forall i :: 0 <= i < |batch| ==> batch[i].key in m && !Blank(m[batch[i].key])
    ensures Progress(env, true, stores, source, Apply(env, now, plan, batch, m), open - T.KeysOf(batch))
    decreases |batch|
  {
    if batch != [] {
      var item := batch[0];
      var value := m[item.key];
      assert value != "" by { assert !Blank(value); }
      ApplyItem(env, now, stores, source, plan, open, item, value);
      var plan' := plan.(next := Put(plan.next, item.key, value),
                         memory := Put(plan.memory, item.cacheKey, Entry(env, now, item, value)));
      ApplyProgress(env, now, stores, source, plan', open - {item.key}, batch[1..], m);
      assert open - {item.key} - T.KeysOf(batch[1..]) == open - T.KeysOf(batch);
    }
  }

  ghost predicate DistinctKeys(items: B.Batch) {
    forall i, j :: 0 <= i < j < |items| ==> items[i].key != items[j].key
  }

  lemma PartsOfItems(env: Setting, source: Entries<string>, a: B.Batch, b: B.Batch)
    requires ItemsOk(env, source, a + b) && DistinctKeys(a + b)
    ensures ItemsOk(env, source, a) && ItemsOk(env, source, b) && DistinctKeys(a) && DistinctKeys(b)
    ensures T.KeysOf(a) !! T.KeysOf(b) && T.KeysOf(a + b) == T.KeysOf(a) + T.KeysOf(b)
  {
    forall i | 0 <= i < |a| ensures (a + b)[i] == a[i] {}
    forall i | 0 <= i < |b| ensures (a + b)[|a| + i] == b[i] {}
    T.KeysOfParts(a, b);
    assert ItemsOk(env, source, a) by {
      forall i | 0 <= i < |a| ensures ItemOk(env, a[i]) && (a[i].key, a[i].text) in source { assert (a + b)[i] == a[i]; }
    }
    assert ItemsOk(env, source, b) by {
      forall i | 0 <= i < |b| ensures ItemOk(env, b[i]) && (b[i].key, b[i].text) in source { assert (a + b)[|a| + i] == b[i]; }
    }
    assert DistinctKeys(a) by {
      forall i, j | 0 <= i < j < |a| ensures a[i].key != a[j].key { assert (a + b)[i] == a[i] && (a + b)[j] == a[j]; }
    }
    assert DistinctKeys(b) by {
      forall i, j | 0 <= i < j < |b| ensures b[i].key != b[j].key {
        assert (a + b)[|a| + i] == b[i] && (a + b)[|a| + j] == b[j];
      }
    }
    forall i, j | 0 <= i < |a| && 0 <= j < |b| ensures a[i].key != b[j].key {
      assert (a + b)[i] == a[i] && (a + b)[|a| + j] == b[j];
    }
  }

  lemma BatchStep(env: Setting, now: string, o: nat -> T.Outcome, at: nat, stores: Stores,
                  source: Entries<string>, plan: Plan, open: set<string>, batch: B.Batch)
    requires GoodKeys(env) && Distinct(source) && Progress(env, true, stores, source, plan, open)
    requires ItemsOk(env, source, batch) && DistinctKeys(batch) && T.KeysOf(batch) <= open
    requires T.Translate(o, at, batch).result.Done?
    ensures Progress(env, true, stores, source,
      Apply(env, now, plan, batch, T.Translate(o, at, batch).result.translated), open - T.KeysOf(batch))
  {
    var m := T.Translate(o, at, batch).result.translated;
    T.ReturnIsComplete(o, at, batch, 0);
    assert forall i :: 0 <= i < |batch| ==> batch[i].key in T.KeysOf(batch);
    ApplyProgress(env, now, stores, source, plan, open, batch, m);
  }

  /** A normal end of all batches closes every item of every batch. */
  lemma {:induction false} BatchesProgress(env: Setting, now: string, o: nat -> T.Outcome, at: nat, stores: Stores,
                                           source: Entries<string>, plan: Plan, open: set<string>, batches: seq<B.Batch>)
    requires GoodKeys(env) && Distinct(source) && Progress(env, true, stores, source, plan, open)
    requires ItemsOk(env, source, B.Flatten(batches)) && DistinctKeys(B.Flatten(batches))
    requires T.KeysOf(B.Flatten(batches)) <= open
    ensures var r := ApplyBatches(env, now, o, at, plan, batches);
      r.Got? ==> Progress(env, true, stores, source, r.plan, open - T.KeysOf(B.Flatten(batches)))
    decreases |batches|
  {
    if batches == [] {
      assert open - T.KeysOf(B.Flatten(batches)) == open;
    } else {
      var first, rest := batches[0], B.Flatten(batches[1..]);
      var t := T.Translate(o, at, first);
      PartsOfItems(env, source, first, rest);
      if t.result.Done? {
        BatchStep(env, now, o, at, stores, source, plan, open, first);
        var plan' := Apply(env, now, plan, first, t.result.translated);
        BatchesProgress(env, now, o, t.next, stores, source, plan', open - T.KeysOf(first), batches[1..]);
        assert open - T.KeysOf(first) - T.KeysOf(rest) == open - T.KeysOf(B.Flatten(batches));
      }
    }
  }

  // ---- last loop: falling back ----

  lemma FallBackItem(env: Setting, stores: Stores, source: Entries<string>, plan: Plan, open: set<string>, item: B.Item)
    requires GoodKeys(env) && Distinct(source) && Progress(env, false, stores, source, plan, open)
    requires ItemOk(env, item) && (item.key, item.text) in source && item.key in open
    ensures Get(stores.existing, item.key).None? && Get(plan.next, item.key).None?
    ensures Progress(env, false, stores, source,
      plan.(next := Put(plan.next, item.key, item.text), fallback := Put(plan.fallback, item.key, ())), open - {item.key})
  {
    var plan' := plan.(next := Put(plan.next, item.key, item.text), fallback := Put(plan.fallback, item.key, ()));
    FallbackPut(plan.fallback, item.key);
    forall q ensures Get(plan'.next, q) == if q == item.key then Some(item.text) else Get(plan.next, q) {
      PutGet(plan.next, item.key, item.text, q);
    }
    var j :| 0 <= j < |source| && source[j] == (item.key, item.text);
    assert KeyOpen(env, false, stores, plan, source[j].0, source[j].1);
    CloseKey(env, false, stores, source, plan, plan', open, item);
  }

  lemma FallBackStep(env: Setting, allow: bool, force: bool, stores: Stores, source: Entries<string>,
                     plan: Plan, open: set<string>, item: B.Item)
    requires GoodKeys(env) && Distinct(source) && Progress(env, allow, stores, source, plan, open)
    requires ItemOk(env, item) && (item.key, item.text) in source && (allow ==> open == {})
    ensures Progress(env, allow, stores, source, FallBackOne(force, stores, plan, item), open - {item.key})
  {
    var j :| 0 <= j < |source| && source[j] == (item.key, item.text);
    if item.key in open {
      FallBackItem(env, stores, source, plan, open, item);
    } else {
      assert KeyDone(env, allow, stores, plan, source[j].0, source[j].1);
      assert open - {item.key} == open;
    }
  }

  lemma {:induction false} FallBackProgress(env: Setting, allow: bool, force: bool, stores: Stores, source: Entries<string>,
                                            plan: Plan, open: set<string>, items: B.Batch)
    requires GoodKeys(env) && Distinct(source) && Progress(env, allow, stores, source, plan, open)
    requires ItemsOk(env, source, items) && (allow ==> open == {})
    ensures Progress(env, allow, stores, source, FallBack(force, stores, plan, items), open - T.KeysOf(items))
    decreases |items|
  {
    if items == [] {
      assert open - T.KeysOf(items) == open;
    } else {
      var item := items[0];
      FallBackStep(env, allow, force, stores, source, plan, open, item);
      FallBackProgress(env, allow, force, stores, source, FallBackOne(force, stores, plan, item), open - {item.key}, items[1..]);
      assert open - {item.key} - T.KeysOf(items[1..]) == open - T.KeysOf(items);
    }
  }

  /** When a run gets as far as writing, every source key is done. */
  lemma FinalPlanDone(env: Setting, options: Options, files: Files, source: Entries<string>, o: nat -> T.Outcome, at: nat)
    requires GoodKeys(env) && Distinct(source)
    ensures var r := FinalPlan(env, options, files, source, o, at);
      r.Got? ==> Progress(env, options.allowTranslate, StoresOf(files), source, r.plan, {})
  {
    var stores := StoresOf(files);
    var allow := options.allowTranslate;
    var plan := PlanKeys(env, allow, stores, source);
    var open := T.KeysOf(plan.pending);
    LoadMemoryOk(files.memory);
    PlanProgress(env, allow, stores, source);
    if allow {
      B.PackIsGreedyPartition(plan.pending, env.budget);
      var batches := B.Pack(plan.pending, env.budget);
      BatchesProgress(env, options.now, o, at, stores, source, plan, open, batches);
      var r := ApplyBatches(env, options.now, o, at, plan, batches);
      if r.Got? {
        FallBackProgress(env, allow, options.force, stores, source, r.plan, {}, plan.pending);
        assert {} - T.KeysOf(plan.pending) == {};
      }
    } else {
      FallBackProgress(env, allow, options.force, stores, source, plan, open, plan.pending);
    }
  }

  // ---- the second run ----

  lemma SortedKeysHold(s: KeySet, k: string)
    requires Distinct(s)
    ensures k in SortedKeys(s) <==> Get(s, k).Some?
    ensures |SortedKeys(s)| == |SortByKey(s)|
  {
    var sorted := SortByKey(s);
    SortKeeps(s);
    GetKeys(s, k);
    if Get(s, k).Some? {
      var i :| 0 <= i < |sorted| && sorted[i].0 == k;
      assert SortedKeys(s)[i] == k;
    }
    if k in SortedKeys(s) {
      var i :| 0 <= i < |sorted| && SortedKeys(s)[i] == k;
      assert sorted[i].0 == k;
    }
  }

  /** What the first run wrote, as the second one reads it. */
  ghost predicate ReadsBack(source: Entries<string>, plan: Plan, stores: Stores) {
    && (forall i :: 0 <= i < |source| ==>
          Get(plan.next, source[i].0).Some? && Get(stores.existing, source[i].0) == Get(plan.next, source[i].0))
    && MemoryOk(stores.memory) && SameMap(stores.memory, plan.memory)
    && (forall k :: k in stores.previous <==> Get(plan.fallback, k).Some?)
  }

  /**
   The memory has nothing new to say about the key: an entry under its cache key agrees with the table, and an
   old fallback without such an entry has no text hash to copy from either.
   */
  ghost predicate SettledKey(env: Setting, stores: Stores, k: string, t: string) {
    var cached := Get(stores.memory, CacheKeyOf(env, k, t));
    && (cached.Some? ==> Get(stores.existing, k) == Some(cached.value.translated))
    && (k in stores.previous && cached.None? ==> !HasHash(stores.memory, env.locale, env.hashText(t)))
  }

  ghost predicate Settled(env: Setting, stores: Stores, source: Entries<string>) {
    forall i :: 0 <= i < |source| ==> SettledKey(env, stores, source[i].0, source[i].1)
  }

  lemma SecondKey(env: Setting, plan: Plan, stores: Stores, p: Plan, source: Entries<string>, i: nat)
    requires ReadsBack(source, plan, stores) && Settled(env, stores, source)
    requires i < |source| && p.memory == stores.memory
    ensures var k := source[i].0;
      PlanKey(env, false, stores, p, k, source[i].1)
        == p.(next := Put(p.next, k, Get(plan.next, k).value),
              fallback := if k in stores.previous then Put(p.fallback, k, ()) else p.fallback)
  {
    var k, t := source[i].0, source[i].1;
    assert SettledKey(env, stores, k, t);
    ByTextHashEligible(stores.memory, env.locale, env.hashText(t));
  }

  /** The second plan so far: nothing pending, and the keys seen as in the first plan. */
  ghost predicate Mirrors(plan: Plan, p: Plan, memory: Memory, keys: set<string>) {
    && p.pending == [] && p.memory == memory && Distinct(p.fallback)
    && (forall q :: Get(p.next, q) == if q in keys then Get(plan.next, q) else None)
    && (forall q :: Get(p.fallback, q) == if q in keys then Get(plan.fallback, q) else None)
  }

  lemma MirrorStep(plan: Plan, p: Plan, memory: Memory, keys: set<string>, k: string, refresh: bool)
    requires Mirrors(plan, p, memory, keys) && k !in keys
    requires Get(plan.next, k).Some? && (refresh <==> Get(plan.fallback, k).Some?)
    ensures Mirrors(plan,
      p.(next := Put(p.next, k, Get(plan.next, k).value),
         fallback := if refresh then Put(p.fallback, k, ()) else p.fallback), memory, keys + {k})
  {
    FallbackPut(p.fallback, k);
    forall q ensures Get(Put(p.next, k, Get(plan.next, k).value), q) == if q in keys + {k} then Get(plan.next, q) else None {
      PutGet(p.next, k, Get(plan.next, k).value, q);
    }
    var fallback := if refresh then Put(p.fallback, k, ()) else p.fallback;
    forall q ensures Get(fallback, q) == if q in keys + {k} then Get(plan.fallback, q) else None {
      if q == k && refresh { assert Get(plan.fallback, k).value == (); }
    }
  }

  lemma {:induction false} SecondPlan(env: Setting, plan: Plan, stores: Stores, source: Entries<string>, n: nat)
    requires Distinct(source) && n <= |source|
    requires ReadsBack(source, plan, stores) && Settled(env, stores, source)
    ensures Mirrors(plan, PlanKeys(env, false, stores, source[..n]), stores.memory, Keys(source[..n]))
  {
    if n > 0 {
      var k, t := source[n - 1].0, source[n - 1].1;
      SecondPlan(env, plan, stores, source, n - 1);
      var p := PlanKeys(env, false, stores, source[..n - 1]);
      assert source[..n][..n - 1] == source[..n - 1];
      assert source[..n] == source[..n - 1] + [(k, t)];
      AppendKeys(source[..n - 1], k, t);
      SecondKey(env, plan, stores, p, source, n - 1);
      MirrorStep(plan, p, stores.memory, Keys(source[..n - 1]), k, k in stores.previous);
    }
  }

  lemma NextFlatMap(source: Entries<string>, next: Entries<string>)
    requires Distinct(source) && forall i :: 0 <= i < |source| ==> Get(next, source[i].0).Some?
    ensures Distinct(NextFlat(source, next)) && Keys(NextFlat(source, next)) == Keys(source)
    ensures forall i :: 0 <= i < |source| ==> Get(NextFlat(source, next), source[i].0) == Get(next, source[i].0)
  {
    var m := NextFlat(source, next);
    assert forall i :: 0 <= i < |source| ==> m[i].0 == source[i].0;
    forall k | k in Keys(source) ensures k in Keys(m) {
      var i :| 0 <= i < |source| && source[i].0 == k;
      assert m[i].0 == k;
    }
    forall i | 0 <= i < |source| ensures Get(m, source[i].0) == Get(next, source[i].0) { GetAt(m, i); }
  }

  lemma FilesReadBack(env: Setting, allow: bool, stores: Stores, source: Entries<string>, plan: Plan, files: Files)
    requires Distinct(source) && Rebuildable(Keys(source)) && Progress(env, allow, stores, source, plan, {})
    requires files.table == Some(Rebuild(NextFlat(source, plan.next)))
    requires files.meta.Some? && files.meta.value.fallbackKeys == SortedKeys(plan.fallback)
    requires files.memory == SaveMemory(plan.memory)
    ensures ReadsBack(source, plan, StoresOf(files))
    ensures SaveMemory(LoadMemory(files.memory)) == files.memory
  {
    forall i | 0 <= i < |source| ensures Get(plan.next, source[i].0).Some? {
      assert KeyDone(env, allow, stores, plan, source[i].0, source[i].1);
    }
    NextFlatMap(source, plan.next);
    FlattenRebuild(NextFlat(source, plan.next));
    SaveLoad(plan.memory);
    forall k { SortedKeysHold(plan.fallback, k); }
  }

  /** Settings that differ in provider, model and character budget only. */
  ghost predicate SameButProvider(a: Setting, b: Setting) {
    b == a.(provider := b.provider, model := b.model, budget := b.budget)
  }

  /** A provider has nothing to do and nothing to sign: no fallback is left, and the metadata name it already. */
  predicate UpToDate(env: Setting, meta: Meta) {
    meta.fallbackKeys == [] && meta.provider == env.provider && meta.model == env.model
  }

  lemma SameFiles(env: Setting, env2: Setting, options1: Options, options2: Options, source: Entries<string>, sourceHash: string,
                  before: Files, plan: Plan, p: Plan)
    requires SameButProvider(env, env2)
    requires Distinct(p.fallback) && Distinct(plan.fallback) && SameMap(p.fallback, plan.fallback)
    requires forall i :: 0 <= i < |source| ==> Get(p.next, source[i].0) == Get(plan.next, source[i].0)
    requires SaveMemory(p.memory) == SaveMemory(plan.memory)
    requires options2.allowTranslate ==>
      UpToDate(env2, NextMeta(env, options1, before.meta, sourceHash, |source|, plan.fallback))
    ensures var files := Expected(env, options1, before, source, sourceHash, plan);
      Expected(env2, options2, files, source, sourceHash, p) == files
  {
    SortCanonical(p.fallback, plan.fallback);
    assert NextFlat(source, p.next) == NextFlat(source, plan.next);
  }

  /** Without old fallbacks the decision does not ask whether there is a provider. */
  lemma {:induction false} SamePlanKeys(env: Setting, allow: bool, stores: Stores, source: Entries<string>)
    requires allow ==> stores.previous == []
    ensures PlanKeys(env, allow, stores, source) == PlanKeys(env, false, stores, source)
    decreases |source|
  {
    if source != [] { SamePlanKeys(env, allow, stores, source[..|source| - 1]); }
  }

  /** A second run over settled files has nothing to do, and expects the files of the first run again. */
  lemma QuietRun(env: Setting, env2: Setting, options1: Options, options2: Options, source: Entries<string>, sourceHash: string,
                 files: Files, plan: Plan, before: Files, o: nat -> T.Outcome, at: nat)
    requires SameButProvider(env, env2) && Distinct(source) && Distinct(plan.fallback)
    requires Keys(plan.fallback) <= Keys(source) && Parity(env, source, plan.next)
    requires files == Expected(env, options1, before, source, sourceHash, plan)
    requires ReadsBack(source, plan, StoresOf(files)) && SaveMemory(LoadMemory(files.memory)) == files.memory
    requires Settled(env2, StoresOf(files), source)
    requires options2.allowTranslate ==> UpToDate(env2, files.meta.value)
    ensures var r := FinalPlan(env2, options2, files, source, o, at);
      && r.Got? && r.at == at && Parity(env2, source, r.plan.next)
      && Expected(env2, options2, files, source, sourceHash, r.plan) == files
  {
    var stores := StoresOf(files);
    var n := |source|;
    SecondPlan(env2, plan, stores, source, n);
    assert source[..n] == source;
    SamePlanKeys(env2, options2.allowTranslate, stores, source);
    var p := PlanKeys(env2, false, stores, source);
    assert FinalPlan(env2, options2, files, source, o, at) == Got(p, at);
    forall i | 0 <= i < n ensures Get(p.next, source[i].0) == Get(plan.next, source[i].0) {
      assert source[i].0 in Keys(source);
    }
    forall q ensures Get(p.fallback, q) == Get(plan.fallback, q) { GetKeys(plan.fallback, q); }
    SameFiles(env, env2, options1, options2, source, sourceHash, before, plan, p);
  }

  /** A run with a provider that is not up to date has something to change, or throws. */
  lemma OutdatedChanges(env: Setting, options: Options, source: Forest, sourceHash: string, files: Files,
                        o: nat -> T.Outcome, at: nat)
    requires GoodKeys(env) && options.allowTranslate && files.meta.Some? && !UpToDate(env, files.meta.value)
    ensures var outcome := Sync(env, options, source, sourceHash, files, o, at).outcome; outcome.Synced? ==> outcome.changed
  {
    var flat := Flatten(source);
    PutAllDistinct([], Emit(source, ""));
    if Sync(env, options, source, sourceHash, files, o, at).outcome.Synced? {
      FinalPlanDone(env, options, files, flat, o, at);
      var plan := FinalPlan(env, options, files, flat, o, at).plan;
      NoFallbacks(env, StoresOf(files), flat, plan);
      var meta := Expected(env, options, files, flat, sourceHash, plan).meta.value;
      assert meta.fallbackKeys == SortedKeys([]) == [] && meta.provider == env.provider && meta.model == env.model;
    }
  }

  /** Where every key is done and the files are what the plan says, they are settled. */
  lemma DoneIsSettled(env: Setting, allow: bool, stores1: Stores, source: Entries<string>, plan: Plan, stores: Stores)
    requires Progress(env, allow, stores1, source, plan, {}) && ReadsBack(source, plan, stores)
    requires forall h :: HasHash(stores.memory, env.locale, h) ==> HasHash(stores1.memory, env.locale, h) || allow
    ensures Settled(env, stores, source)
  {
    forall i | 0 <= i < |source| ensures SettledKey(env, stores, source[i].0, source[i].1) {
      assert KeyDone(env, allow, stores1, plan, source[i].0, source[i].1);
      assert Get(stores.memory, CacheKeyOf(env, source[i].0, source[i].1)) == Get(plan.memory, CacheKeyOf(env, source[i].0, source[i].1));
    }
  }

  /** A run that changes nothing leaves settled files behind: it has found them settled. */
  lemma UnchangedIsSettled(env: Setting, options: Options, source: Entries<string>, sourceHash: string, files: Files,
                           o: nat -> T.Outcome, at: nat)
    requires GoodKeys(env) && Distinct(source) && Rebuildable(Keys(source))
    requires var r := FinalPlan(env, options, files, source, o, at);
      r.Got? && Expected(env, options, files, source, sourceHash, r.plan) == files
    ensures Settled(env, StoresOf(files), source)
  {
    var plan := FinalPlan(env, options, files, source, o, at).plan;
    FinalPlanDone(env, options, files, source, o, at);
    FilesReadBack(env, options.allowTranslate, StoresOf(files), source, plan, files);
    DoneIsSettled(env, options.allowTranslate, StoresOf(files), source, plan, StoresOf(files));
  }

  /** The first run's plan, and what it wrote, as a second run reads it. */
  lemma FirstRun(env: Setting, options: Options, source: Forest, sourceHash: string, files: Files, o: nat -> T.Outcome, at: nat)
    returns (plan: Plan)
    requires GoodKeys(env) && Rebuildable(Keys(Flatten(source))) && options.write && !options.checkOnly
    requires Sync(env, options, source, sourceHash, files, o, at).outcome.Synced?
    ensures var flat := Flatten(source);
      var written := Sync(env, options, source, sourceHash, files, o, at).files;
      && FinalPlan(env, options, files, flat, o, at).Got? && plan == FinalPlan(env, options, files, flat, o, at).plan
      && Distinct(flat) && Progress(env, options.allowTranslate, StoresOf(files), flat, plan, {}) && Parity(env, flat, plan.next)
      && written == Expected(env, options, files, flat, sourceHash, plan)
      && ReadsBack(flat, plan, StoresOf(written)) && SaveMemory(LoadMemory(written.memory)) == written.memory
  {
    var flat := Flatten(source);
    PutAllDistinct([], Emit(source, ""));
    FinalPlanDone(env, options, files, flat, o, at);
    plan := FinalPlan(env, options, files, flat, o, at).plan;
    FilesReadBack(env, options.allowTranslate, StoresOf(files), flat, plan, Sync(env, options, source, sourceHash, files, o, at).files);
  }

  /** What the files of a written sync must be like for a next run, with its own provider and model, to be idle. */
  ghost predicate Idle(env: Setting, allow: bool, source: Forest, files: Files) {
    && files.meta.Some? && (allow ==> UpToDate(env, files.meta.value))
    && Settled(env, StoresOf(files), Flatten(source))
  }

  /**
   After a sync that was written, the next run over the same source, with whatever options, provider and model,
   finds every file as it should be, sends no prompt and changes nothing, exactly when the written files are
   settled under its cache keys and up to date for its provider, if it has one; otherwise it reports a change
   or throws.
   */
  lemma WrittenSyncIsFixpoint(env: Setting, env2: Setting, options1: Options, options2: Options, source: Forest, sourceHash: string,
                              files: Files, o1: nat -> T.Outcome, at1: nat, o2: nat -> T.Outcome, at2: nat)
    requires GoodKeys(env) && GoodKeys(env2) && SameButProvider(env, env2) && Rebuildable(Keys(Flatten(source)))
    requires options1.write && !options1.checkOnly
    requires Sync(env, options1, source, sourceHash, files, o1, at1).outcome.Synced?
    ensures var first := Sync(env, options1, source, sourceHash, files, o1, at1);
      var second := Sync(env2, options2, source, sourceHash, first.files, o2, at2);
      if Idle(env2, options2.allowTranslate, source, first.files)
        then second == Run(Synced(false, false, first.outcome.fallbackCount), first.files, at2)
        else second.outcome.Threw? || second.outcome.changed
  {
    var flat := Flatten(source);
    var plan := FirstRun(env, options1, source, sourceHash, files, o1, at1);
    var written := Sync(env, options1, source, sourceHash, files, o1, at1).files;
    if Idle(env2, options2.allowTranslate, source, written) {
      QuietRun(env, env2, options1, options2, flat, sourceHash, written, plan, files, o2, at2);
    } else if options2.allowTranslate && !UpToDate(env2, written.meta.value) {
      OutdatedChanges(env2, options2, source, sourceHash, written, o2, at2);
    } else {
      var outcome := Sync(env2, options2, source, sourceHash, written, o2, at2).outcome;
      if outcome.Synced? && !outcome.changed {
        UnchangedIsSettled(env2, options2, flat, sourceHash, written, o2, at2);
      }
    }
  }

  /**
   Under the same provider and model, with or without a provider in either run, the next run changes nothing
   exactly when it has no provider, or finds no fallback and its own name in the metadata.
   */
  lemma SameProviderIsFixpoint(env: Setting, options1: Options, options2: Options, source: Forest, sourceHash: string,
                               files: Files, o1: nat -> T.Outcome, at1: nat, o2: nat -> T.Outcome, at2: nat)
    requires GoodKeys(env) && Rebuildable(Keys(Flatten(source)))
    requires options1.write && !options1.checkOnly
    requires Sync(env, options1, source, sourceHash, files, o1, at1).outcome.Synced?
    ensures var first := Sync(env, options1, source, sourceHash, files, o1, at1);
      var second := Sync(env, options2, source, sourceHash, first.files, o2, at2);
      && first.files.meta.Some?
      && (options1.allowTranslate ==> UpToDate(env, first.files.meta.value))
      && if options2.allowTranslate ==> UpToDate(env, first.files.meta.value)
         then second == Run(Synced(false, false, first.outcome.fallbackCount), first.files, at2)
         else second.outcome.Threw? || second.outcome.changed
  {
    var plan := FirstRun(env, options1, source, sourceHash, files, o1, at1);
    var written := Sync(env, options1, source, sourceHash, files, o1, at1).files;
    HashesRead(env, plan, StoresOf(written));
    DoneIsSettled(env, options1.allowTranslate, StoresOf(files), Flatten(source), plan, StoresOf(written));
    WrittenSyncIsFixpoint(env, env, options1, options2, source, sourceHash, files, o1, at1, o2, at2);
    if options1.allowTranslate { ProviderLeavesNoFallback(env, options1, source, sourceHash, files, o1, at1); }
  }

  lemma HashesRead(env: Setting, plan: Plan, stores: Stores)
    requires SameMap(stores.memory, plan.memory)
    ensures forall h :: HasHash(stores.memory, env.locale, h) ==> HasHash(plan.memory, env.locale, h)
  {
  }

  /** With a provider, a sync that does not throw leaves no fallback: every source key is translated. */
  lemma ProviderLeavesNoFallback(env: Setting, options: Options, source: Forest, sourceHash: string,
                                 files: Files, o: nat -> T.Outcome, at: nat)
    requires GoodKeys(env) && options.allowTranslate && options.write && !options.checkOnly
    requires Sync(env, options, source, sourceHash, files, o, at).outcome.Synced?
    ensures var r := Sync(env, options, source, sourceHash, files, o, at);
      && r.outcome.fallbackCount == 0 && r.files.meta.Some? && UpToDate(env, r.files.meta.value)
      && r.files.meta.value.translatedKeys == r.files.meta.value.totalKeys == |Flatten(source)|
      && r.files.table.Some?
      && (Rebuildable(Keys(Flatten(source))) ==>
            forall k :: k in Keys(Flatten(source)) <==> Get(Flatten(r.files.table.value), k).Some?)
  {
    var flat := Flatten(source);
    PutAllDistinct([], Emit(source, ""));
    FinalPlanDone(env, options, files, flat, o, at);
    var plan := FinalPlan(env, options, files, flat, o, at).plan;
    NoFallbacks(env, StoresOf(files), flat, plan);
    forall i | 0 <= i < |flat| ensures Get(plan.next, flat[i].0).Some? {
      assert KeyDone(env, true, StoresOf(files), plan, flat[i].0, flat[i].1);
    }
    NextFlatMap(flat, plan.next);
    if Rebuildable(Keys(flat)) {
      FlattenRebuild(NextFlat(flat, plan.next));
      forall k { GetKeys(NextFlat(flat, plan.next), k); }
    }
  }

  lemma SomeKey<V>(m: Entries<V>)
    ensures m == [] || Keys(m) != {}
  {
    assert m == [] || m[0].0 in Keys(m);
  }

  lemma NoFallbacks(env: Setting, stores: Stores, source: Entries<string>, plan: Plan)
    requires Progress(env, true, stores, source, plan, {})
    ensures plan.fallback == []
  {
    forall k | k in Keys(source) ensures k !in Keys(plan.fallback) {
      var i :| 0 <= i < |source| && source[i].0 == k;
      GetKeys(plan.fallback, k);
      assert KeyDone(env, true, stores, plan, source[i].0, source[i].1);
    }
    assert Keys(plan.fallback) == {};
    SomeKey(plan.fallback);
  }

  // ---- why the dotted keys must be rebuildable ----

  /** A plan without provider and memory: the table decides, and everything else is pending. */
  ghost predicate Bare(env: Setting, stores: Stores, source: Entries<string>, plan: Plan) {
    && plan.memory == [] && Distinct(plan.fallback)
    && ItemsOk(env, source, plan.pending)
    && (forall q :: q in T.KeysOf(plan.pending) <==> q in Keys(source) && Get(stores.existing, q).None?)
    && (forall q :: Get(plan.next, q) == if q in Keys(source) then Get(stores.existing, q) else None)
    && (forall q :: Get(plan.fallback, q).Some? <==>
          q in Keys(source) && Get(stores.existing, q).Some? && q in stores.previous)
  }

  lemma BareStep(env: Setting, stores: Stores, source: Entries<string>, plan: Plan, k: string, t: string)
    requires stores.memory == [] && Bare(env, stores, source, plan) && k !in Keys(source)
    ensures Bare(env, stores, source + [(k, t)], PlanKey(env, false, stores, plan, k, t))
  {
    AppendKeys(source, k, t);
    var existing := Get(stores.existing, k);
    if existing.Some? {
      FallbackPut(plan.fallback, k);
      forall q ensures Get(Put(plan.next, k, existing.value), q) == if q == k then existing else Get(plan.next, q) {
        PutGet(plan.next, k, existing.value, q);
      }
    } else {
      var item := B.Item(CacheKeyOf(env, k, t), k, t, env.hashText(t));
      PendingAppend(plan.pending, item);
      assert (source + [(k, t)])[|source|] == (k, t);
    }
  }

  lemma {:induction false} BarePlan(env: Setting, stores: Stores, source: Entries<string>)
    requires stores.memory == [] && Distinct(source)
    ensures Bare(env, stores, source, PlanKeys(env, false, stores, source))
    decreases |source|
  {
    if source != [] {
      var n := |source| - 1;
      var k, t := source[n].0, source[n].1;
      GetLast(source, k);
      BarePlan(env, stores, source[..n]);
      assert k !in Keys(source[..n]) by {
        forall i | 0 <= i < n ensures source[..n][i].0 != k { assert source[i].0 != source[n].0; }
      }
      assert source == source[..n] + [(k, t)];
      BareStep(env, stores, source[..n], PlanKeys(env, false, stores, source[..n]), k, t);
    }
  }

  /** From plan to p the keys given English text are those of `keys` that had no value. */
  ghost predicate FellBack(source: Entries<string>, plan: Plan, p: Plan, keys: set<string>) {
    && p.memory == plan.memory && Distinct(p.fallback)
    && (forall q :: Get(p.next, q) == if Get(plan.next, q).None? && q in keys then Get(source, q) else Get(plan.next, q))
    && (forall q :: Get(p.fallback, q).Some? <==> Get(plan.fallback, q).Some? || (Get(plan.next, q).None? && q in keys))
  }

  lemma {:induction false} BareFallBack(env: Setting, stores: Stores, source: Entries<string>, plan: Plan, items: B.Batch)
    requires Distinct(source) && ItemsOk(env, source, items) && Distinct(plan.fallback)
    requires forall q :: q in T.KeysOf(items) ==> Get(stores.existing, q).None?
    ensures FellBack(source, plan, FallBack(false, stores, plan, items), T.KeysOf(items))
    decreases |items|
  {
    if items != [] {
      var item := items[0];
      var j :| 0 <= j < |source| && source[j] == (item.key, item.text);
      GetAt(source, j);
      var plan' := FallBackOne(false, stores, plan, item);
      assert FellBack(source, plan, plan', {item.key}) by {
        FallbackPut(plan.fallback, item.key);
        forall q { PutGet(plan.next, item.key, item.text, q); }
      }
      BareFallBack(env, stores, source, plan', items[1..]);
    }
  }

  const NO_PROVIDER: Options := Options(false, false, false, true, "")

  /** Without provider and memory, exactly the keys missing from the table and the old fallbacks fall back. */
  lemma BareFinal(env: Setting, files: Files, source: Entries<string>, o: nat -> T.Outcome, at: nat)
    requires Distinct(source) && files.memory == []
    ensures var r := FinalPlan(env, NO_PROVIDER, files, source, o, at);
      var stores := StoresOf(files);
      && r.Got? && r.plan.memory == [] && Distinct(r.plan.fallback)
      && (forall q :: q in Keys(source) ==>
            && (Get(stores.existing, q).None? ==> Get(r.plan.next, q) == Get(source, q))
            && (Get(stores.existing, q).Some? ==> Get(r.plan.next, q) == Get(stores.existing, q))
            && (Get(r.plan.fallback, q).Some? <==> Get(stores.existing, q).None? || q in stores.previous))
  {
    var stores := StoresOf(files);
    var plan := PlanKeys(env, false, stores, source);
    BarePlan(env, stores, source);
    BareFallBack(env, stores, source, plan, plan.pending);
  }

  /** A locale that holds one key only, in a table without metadata. */
  function OneKeyFiles(z: string, text: string): Files {
    Files(Some(Cons(z, Leaf(text), Nil)), None, None, [])
  }

  lemma OneKeyTable(z: string, text: string)
    ensures Flatten(Cons(z, Leaf(text), Nil)) == [(z, text)]
    ensures forall q :: Get([(z, text)], q) == if q == z then Some(text) else None
  {
    var one: Entries<string> := [(z, text)];
    assert Emit(Cons(z, Leaf(text), Nil), "") == one;
    assert [] + one == one;
    PutAllFresh([], one);
  }

  /** The first run keeps that key, takes English for all others, and marks those as fallbacks. */
  lemma OneKeyPlan(env: Setting, flat: Entries<string>, z: string, text: string, o: nat -> T.Outcome)
    requires Distinct(flat) && Get(flat, z) == Some(text)
    ensures var r := FinalPlan(env, NO_PROVIDER, OneKeyFiles(z, text), flat, o, 0);
      && r.Got? && r.plan.memory == [] && Parity(env, flat, r.plan.next)
      && NextFlat(flat, r.plan.next) == flat && z !in SortedKeys(r.plan.fallback)
  {
    var files := OneKeyFiles(z, text);
    OneKeyTable(z, text);
    BareFinal(env, files, flat, o, 0);
    GetKeys(flat, z);
    var plan := FinalPlan(env, NO_PROVIDER, files, flat, o, 0).plan;
    forall i | 0 <= i < |flat| ensures Get(plan.next, flat[i].0) == Some(flat[i].1) {
      GetAt(flat, i);
      assert flat[i].0 in Keys(flat);
    }
    SortedKeysHold(plan.fallback, z);
  }

  /** A source key that is in no table and was no fallback becomes one: the metadata changes. */
  lemma NewFallbackChanges(env: Setting, source: Forest, sourceHash: string, z: string, files: Files, o: nat -> T.Outcome, count: nat)
    requires z in Keys(Flatten(source)) && Distinct(Flatten(source)) && files.memory == []
    requires files.table.Some? && Get(Flatten(files.table.value), z).None?
    requires files.meta.Some? && z !in files.meta.value.fallbackKeys
    ensures Sync(env, NO_PROVIDER, source, sourceHash, files, o, 0).outcome != Synced(false, false, count)
  {
    var flat := Flatten(source);
    BareFinal(env, files, flat, o, 0);
    var plan := FinalPlan(env, NO_PROVIDER, files, flat, o, 0).plan;
    SortedKeysHold(plan.fallback, z);
    assert Expected(env, NO_PROVIDER, files, flat, sourceHash, plan).meta.value.fallbackKeys == SortedKeys(plan.fallback);
  }

  /**
   If a dotted key of the source is lost when the table is rebuilt, a written sync of the locale that
   holds just that key is not a fixpoint.
   */
  lemma LostKeyBreaksFixpoint(env: Setting, source: Forest, sourceHash: string, z: string, o: nat -> T.Outcome)
    requires z in Keys(Flatten(source)) && Get(Flatten(Rebuild(Flatten(source))), z).None?
    ensures var files := OneKeyFiles(z, GetOr(Flatten(source), z, ""));
      var first := Sync(env, NO_PROVIDER, source, sourceHash, files, o, 0);
      && first.outcome.Synced?
      && Sync(env, NO_PROVIDER, source, sourceHash, first.files, o, 0).outcome
           != Synced(false, false, first.outcome.fallbackCount)
  {
    var flat := Flatten(source);
    PutAllDistinct([], Emit(source, ""));
    GetKeys(flat, z);
    var files := OneKeyFiles(z, GetOr(flat, z, ""));
    OneKeyPlan(env, flat, z, GetOr(flat, z, ""), o);
    var first := Sync(env, NO_PROVIDER, source, sourceHash, files, o, 0);
    NewFallbackChanges(env, source, sourceHash, z, first.files, o, first.outcome.fallbackCount);
  }

  /** Written syncs without a provider are fixpoints from all files exactly when the source keys are rebuildable. */
  lemma FixpointExactly(env: Setting, source: Forest, sourceHash: string, o: nat -> T.Outcome)
    requires GoodKeys(env)
    ensures Rebuildable(Keys(Flatten(source))) <==>
      forall files ::
        var first := Sync(env, NO_PROVIDER, source, sourceHash, files, o, 0);
        first.outcome.Synced? ==>
          Sync(env, NO_PROVIDER, source, sourceHash, first.files, o, 0).outcome
            == Synced(false, false, first.outcome.fallbackCount)
  {
    var flat := Flatten(source);
    PutAllDistinct([], Emit(source, ""));
    if Rebuildable(Keys(flat)) {
      forall files | Sync(env, NO_PROVIDER, source, sourceHash, files, o, 0).outcome.Synced?
        ensures Sync(env, NO_PROVIDER, source, sourceHash, Sync(env, NO_PROVIDER, source, sourceHash, files, o, 0).files, o, 0).outcome
          == Synced(false, false, Sync(env, NO_PROVIDER, source, sourceHash, files, o, 0).outcome.fallbackCount)
      {
        SameProviderIsFixpoint(env, NO_PROVIDER, NO_PROVIDER, source, sourceHash, files, o, 0, o, 0);
      }
    } else {
      if forall k :: k in Keys(flat) ==> Get(Flatten(Rebuild(flat)), k).Some? { KeptKeysRebuildable(flat); }
      var z :| z in Keys(flat) && Get(Flatten(Rebuild(flat)), z).None?;
      LostKeyBreaksFixpoint(env, source, sourceHash, z, o);
    }
  }

  /** Every source table with clean keys qualifies. */
  lemma CleanSourceIsRebuildable(source: Forest)
    requires WellFormed(source) && Clean(source)
    ensures Rebuildable(Keys(Flatten(source)))
  {
    PutAllDistinct([], Emit(source, ""));
    RebuildFlatten(source);
    FlattenRebuild(Flatten(source));
  }

  // ---- a check without keys ----

  /** The environment after the API keys are gone. */
  function Keyless(v: Variables): Variables {
    v.(openaiKey := false, anthropicKey := false)
  }

  /** Taking the keys away keeps provider and model unless the Anthropic key alone decided on them. */
  lemma KeylessProvider(v: Variables)
    ensures ConfiguredProvider(Keyless(v)) == ConfiguredProvider(v) <==> v.provider != "" || v.openaiKey || !v.anthropicKey
    ensures ConfiguredProvider(Keyless(v)) == ConfiguredProvider(v) ==> ConfiguredModel(Keyless(v)) == ConfiguredModel(v)
  {
  }

  /** Provider and model are part of what is hashed. */
  ghost predicate SeparateNamespaces(env: Setting) {
    forall p, m, p', m', k, h :: p != p' ==> env.cacheKey(p, m, k, h) != env.cacheKey(p', m', k, h)
  }

  /** If the first run writes, the second one finds nothing to change. */
  ghost predicate IdleAfter(env: Setting, env2: Setting, options1: Options, options2: Options, source: Forest, sourceHash: string,
                            files: Files, o1: nat -> T.Outcome, at1: nat, o2: nat -> T.Outcome, at2: nat) {
    var first := Sync(env, options1, source, sourceHash, files, o1, at1);
    first.outcome.Synced? ==>
      Sync(env2, options2, source, sourceHash, first.files, o2, at2).outcome == Synced(false, false, first.outcome.fallbackCount)
  }

  const WRITE: Options := Options(true, false, false, true, "")
  const CHECK: Options := Options(false, false, true, false, "")

  /** A table with one text, and a memory with another one for it under the cache key of the setting. */
  function TwoTexts(env: Setting, k: string, t: string, kept: string, cached: string): Files {
    Files(Some(Cons(k, Leaf(kept), Nil)), None, None,
      [TmEntry(CacheKeyOf(env, k, t), env.model, env.provider, k, env.sourcePath, SOURCE_LOCALE, t, env.hashText(t), env.locale, cached, "")])
  }

  lemma OneDecision(env: Setting, allow: bool, stores: Stores, k: string, t: string)
    ensures PlanKeys(env, allow, stores, [(k, t)]) == PlanKey(env, allow, stores, Plan([], stores.memory, [], []), k, t)
  {
    assert [(k, t)][..0] == [];
  }

  lemma TwoTextsStores(env: Setting, k: string, t: string, kept: string, cached: string)
    requires GoodKeys(env) && !Blank(cached)
    ensures var stores := StoresOf(TwoTexts(env, k, t, kept, cached));
      && |stores.memory| == 1 && stores.memory[0].0 == CacheKeyOf(env, k, t) && stores.memory[0].1.translated == cached
      && Get(stores.existing, k) == Some(kept) && stores.previous == []
  {
    OneKeyTable(k, kept);
    var lines := TwoTexts(env, k, t, kept, cached).memory;
    assert Usable(lines[0]) by { assert CacheKey(env, k, env.hashText(t)) != ""; }
    assert lines[..0] == [] && LoadMemory(lines[..0]) == [];
  }

  /** Under another setting the first run keeps the text of the table; the memory stays as it is. */
  lemma FirstKeeps(a: Setting, b: Setting, k: string, t: string, kept: string, cached: string, o: nat -> T.Outcome)
    requires GoodKeys(b) && CacheKeyOf(a, k, t) != CacheKeyOf(b, k, t) && !Blank(cached)
    ensures var files := TwoTexts(b, k, t, kept, cached);
      var r := FinalPlan(a, WRITE, files, [(k, t)], o, 0);
      r.Got? && Get(r.plan.next, k) == Some(kept) && r.plan.memory == StoresOf(files).memory && r.plan.fallback == []
  {
    var files := TwoTexts(b, k, t, kept, cached);
    TwoTextsStores(b, k, t, kept, cached);
    OneDecision(a, true, StoresOf(files), k, t);
    var plan := PlanKeys(a, true, StoresOf(files), [(k, t)]);
    assert Get(StoresOf(files).memory, CacheKeyOf(a, k, t)).None?;
    assert plan.next == [(k, kept)] && plan.pending == [];
  }

  /**
   Where the Anthropic key alone decided on the provider, the check without it looks under other cache keys: it
   finds another text in the memory, and reports a change right after a written sync.
   */
  lemma LostProviderBreaksFixpoint(env: Setting, v: Variables, k: string, t: string, kept: string, cached: string,
                                   sourceHash: string, o: nat -> T.Outcome)
    requires v.provider == "" && !v.openaiKey && v.anthropicKey
    requires SeparateNamespaces(env) && GoodKeys(Configured(env, v)) && GoodKeys(Configured(env, Keyless(v)))
    requires k != "" && DOT !in k && !Blank(cached) && kept != cached
    requires env.placeholders(t) == env.placeholders(kept) == env.placeholders(cached)
    ensures var a, b := Configured(env, v), Configured(env, Keyless(v));
      var source := Cons(k, Leaf(t), Nil);
      var first := Sync(a, WRITE, source, sourceHash, TwoTexts(b, k, t, kept, cached), o, 0);
      && first.outcome.Synced?
      && Sync(b, CHECK, source, sourceHash, first.files, o, 0).outcome == Synced(true, false, 0)
  {
    var a, b := Configured(env, v), Configured(env, Keyless(v));
    var source, files := Cons(k, Leaf(t), Nil), TwoTexts(b, k, t, kept, cached);
    OneKeyTable(k, t);
    OneKeyRebuildable(k, t);
    FirstKeeps(a, b, k, t, kept, cached, o);
    var plan := FirstRun(a, WRITE, source, sourceHash, files, o, 0);
    var written := Sync(a, WRITE, source, sourceHash, files, o, 0).files;
    SecondTakes(a, b, k, t, kept, cached, plan, written, o);
    WrittenSyncIsFixpoint(a, b, WRITE, CHECK, source, sourceHash, files, o, 0, o, 0);
    assert !SettledKey(b, StoresOf(written), [(k, t)][0].0, [(k, t)][0].1);
  }

  lemma OneKeyRebuildable(k: string, t: string)
    requires DOT !in k
    ensures Keys([(k, t)]) == {k} && Rebuildable(Keys([(k, t)]))
  {
    assert [(k, t)][0].0 == k;
  }

  /** Under its own cache key the second run finds the other text. */
  lemma SecondTakes(a: Setting, b: Setting, k: string, t: string, kept: string, cached: string, plan: Plan, written: Files,
                    o: nat -> T.Outcome)
    requires GoodKeys(b) && !Blank(cached)
    requires ReadsBack([(k, t)], plan, StoresOf(written))
    requires plan.memory == StoresOf(TwoTexts(b, k, t, kept, cached)).memory && plan.fallback == []
    ensures var r := FinalPlan(b, CHECK, written, [(k, t)], o, 0);
      r.Got? && r.plan.next == [(k, cached)] && r.plan.fallback == []
    ensures var e := Get(StoresOf(written).memory, CacheKeyOf(b, k, t)); e.Some? && e.value.translated == cached
  {
    TwoTextsStores(b, k, t, kept, cached);
    assert Get(StoresOf(written).memory, CacheKeyOf(b, k, t)) == Get(plan.memory, CacheKeyOf(b, k, t));
    OneDecision(b, false, StoresOf(written), k, t);
  }

  lemma SameSettingIdle(env: Setting, options1: Options, options2: Options, source: Forest, sourceHash: string,
                        files: Files, o1: nat -> T.Outcome, at1: nat, o2: nat -> T.Outcome, at2: nat)
    requires GoodKeys(env) && Rebuildable(Keys(Flatten(source)))
    requires options1.write && !options1.checkOnly && !options2.allowTranslate
    ensures IdleAfter(env, env, options1, options2, source, sourceHash, files, o1, at1, o2, at2)
  {
    hide Sync, GoodKeys, Rebuildable;
    if Sync(env, options1, source, sourceHash, files, o1, at1).outcome.Synced? {
      SameProviderIsFixpoint(env, options1, options2, source, sourceHash, files, o1, at1, o2, at2);
    }
  }

  lemma LostProviderNotIdle(env: Setting, v: Variables, o: nat -> T.Outcome)
    requires v.provider == "" && !v.openaiKey && v.anthropicKey
    requires SeparateNamespaces(env) && GoodKeys(Configured(env, v)) && GoodKeys(Configured(env, Keyless(v)))
    requires env.placeholders("T") == env.placeholders("Y") == env.placeholders("X")
    ensures var a, b := Configured(env, v), Configured(env, Keyless(v));
      !IdleAfter(a, b, WRITE, CHECK, Cons("k", Leaf("T"), Nil), "", TwoTexts(b, "k", "T", "Y", "X"), o, 0, o, 0)
  {
    hide Sync, GoodKeys, SeparateNamespaces, TwoTexts;
    assert !IsSpace("X"[0]);
    LostProviderBreaksFixpoint(env, v, "k", "T", "Y", "X", "", o);
  }

  /**
   A check without the keys, after any written sync with them, finds nothing to change, exactly when the provider
   is set by name, or the OpenAI key was among them.
   */
  lemma KeylessCheckExactly(env: Setting, v: Variables)
    requires HasProvider(v)
    requires SeparateNamespaces(env) && GoodKeys(Configured(env, v)) && GoodKeys(Configured(env, Keyless(v)))
    requires env.placeholders("T") == env.placeholders("Y") == env.placeholders("X")
    ensures v.provider != "" || v.openaiKey <==>
      forall options1: Options, options2: Options, source, sourceHash, files, o1, at1, o2, at2 ::
        options1.allowTranslate && options1.write && !options1.checkOnly && !options2.allowTranslate
        && Rebuildable(Keys(Flatten(source))) ==>
          IdleAfter(Configured(env, v), Configured(env, Keyless(v)), options1, options2, source, sourceHash, files, o1, at1, o2, at2)
  {
    hide GoodKeys, Rebuildable, SeparateNamespaces, IdleAfter, Flatten, TwoTexts;
    KeylessProvider(v);
    var a, b := Configured(env, v), Configured(env, Keyless(v));
    if v.provider != "" || v.openaiKey {
      forall options1: Options, options2: Options, source, sourceHash, files, o1, at1, o2, at2 |
        options1.allowTranslate && options1.write && !options1.checkOnly && !options2.allowTranslate
        && Rebuildable(Keys(Flatten(source)))
        ensures IdleAfter(a, b, options1, options2, source, sourceHash, files, o1, at1, o2, at2)
      {
        SameSettingIdle(a, options1, options2, source, sourceHash, files, o1, at1, o2, at2);
      }
    } else {
      var o: nat -> T.Outcome := (i: nat) => T.Failed("");
      LostProviderNotIdle(env, v, o);
      OneKeyTable("k", "T");
      OneKeyRebuildable("k", "T");
      assert Rebuildable(Keys(Flatten(Cons("k", Leaf("T"), Nil))));
    }
  }
}
