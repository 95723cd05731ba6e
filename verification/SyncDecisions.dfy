/**
 What a sync decides and writes, told from its stores: which entry answers to a text hash, the value of every
 source key, the new memory entries, and the metadata.
 */
module SyncDecisions {
  import opened Text
  import opened OrderedMap
  import opened LocaleTree
  import opened Sorting
  import opened SyncLocale
  import F = SyncFixpoint
  import B = Batches
  import T = Translate

  // ---- the memory ----

  /** The entry translates a text of that hash into the locale. */
  predicate ForText(e: TmEntry, locale: string, h: string) {
    h != "" && e.textHash == h && e.tgtLang == locale && !Blank(e.translated)
  }

  /** Entry i is the last one of the memory that does. */
  ghost predicate LastFor(m: Memory, locale: string, h: string, i: int) {
    0 <= i < |m| && ForText(m[i].1, locale, h) && forall j :: i < j < |m| ==> !ForText(m[j].1, locale, h)
  }

  /** The entry found by text hash is the last one of the memory for the text and the locale; none is found without one. */
  lemma {:induction false} ByTextHashIsLast(m: Memory, locale: string, h: string)
    ensures ByTextHash(m, locale, h).Some? <==> exists i :: LastFor(m, locale, h, i)
    ensures forall i :: LastFor(m, locale, h, i) ==> ByTextHash(m, locale, h) == Some(m[i].1)
    decreases |m|
  {
    if m != [] {
      var n := |m| - 1;
      ByTextHashIsLast(m[..n], locale, h);
      if ForText(m[n].1, locale, h) {
        assert LastFor(m, locale, h, n);
      } else {
        forall i ensures LastFor(m, locale, h, i) <==> LastFor(m[..n], locale, h, i) {}
      }
    }
  }

  /** Line i is the last usable one with the cache key. */
  ghost predicate LastLine(lines: seq<TmEntry>, c: string, i: int) {
    && 0 <= i < |lines| && lines[i].cacheKey == c && !Blank(lines[i].translated)
    && forall j :: i < j < |lines| ==> lines[j].cacheKey != c || Blank(lines[j].translated)
  }

  /** Loading keeps, for each non-empty cache key, the last line with a translation. */
  lemma {:induction false} LoadKeepsLast(lines: seq<TmEntry>, c: string)
    ensures Get(LoadMemory(lines), c).Some? <==> c != "" && exists i :: LastLine(lines, c, i)
    ensures forall i :: c != "" && LastLine(lines, c, i) ==> Get(LoadMemory(lines), c) == Some(lines[i])
    decreases |lines|
  {
    if lines != [] {
      var n := |lines| - 1;
      LoadKeepsLast(lines[..n], c);
      PutGet(LoadMemory(lines[..n]), lines[n].cacheKey, lines[n], c);
      if lines[n].cacheKey == c && !Blank(lines[n].translated) {
        assert LastLine(lines, c, n);
      } else {
        forall i ensures LastLine(lines, c, i) <==> LastLine(lines[..n], c, i) {}
      }
    }
  }

  // ---- the decision for every key ----

  /** The value, memory entry, fallback mark and pending item of a source key after the first loop. */
  ghost predicate Decided(env: Setting, allow: bool, stores: Stores, plan: Plan, k: string, t: string) {
    var hash := env.hashText(t);
    var c := env.cacheKey(env.provider, env.model, k, hash);
    var cached, existing, refresh := Get(stores.memory, c), Get(stores.existing, k), k in stores.previous;
    var kept := k !in T.KeysOf(plan.pending) && Get(plan.memory, c) == cached && (Get(plan.fallback, k).Some? <==> refresh);
    if cached.Some? && !(allow && refresh) then
      kept && Get(plan.next, k) == Some(cached.value.translated)
    else if (refresh || existing.None?) && exists i :: LastFor(stores.memory, env.locale, hash, i) then
      && k !in T.KeysOf(plan.pending) && Get(plan.fallback, k).None?
      && exists i :: LastFor(stores.memory, env.locale, hash, i) && Copies(plan, stores.memory[i].1, env, k, c)
    else if existing.Some? && !(allow && refresh) then
      kept && Get(plan.next, k) == existing
    else
      && B.Item(c, k, t, hash) in plan.pending && Get(plan.next, k).None? && Get(plan.fallback, k).None?
      && Get(plan.memory, c) == cached
  }

  /** The key has the entry's text, and a copy of the entry under its own cache key. */
  ghost predicate Copies(plan: Plan, e: TmEntry, env: Setting, k: string, c: string) {
    && Get(plan.next, k) == Some(e.translated)
    && Get(plan.memory, c) == Some(TmEntry(c, e.model, e.provider, k, env.sourcePath, e.srcLang, e.text, e.textHash,
                                           e.tgtLang, e.translated, e.updatedAt))
  }

  lemma DecidesKey(env: Setting, allow: bool, stores: Stores, plan: Plan, k: string, t: string)
    requires F.Untouched(env, stores, plan, k, t) && k !in T.KeysOf(plan.pending)
    ensures Decided(env, allow, stores, PlanKey(env, allow, stores, plan, k, t), k, t)
  {
    var plan' := PlanKey(env, allow, stores, plan, k, t);
    var hash := env.hashText(t);
    var c := CacheKeyOf(env, k, t);
    var cached, existing := Get(plan.memory, c), Get(stores.existing, k);
    var byText := ByTextHash(stores.memory, env.locale, hash);
    ByTextHashIsLast(stores.memory, env.locale, hash);
    PutGet(plan.fallback, k, (), k);
    if cached.Some? && !(allow && k in stores.previous) {
      PutGet(plan.next, k, cached.value.translated, k);
    } else if byText.Some? && (k in stores.previous || existing.None?) {
      PutGet(plan.next, k, byText.value.translated, k);
      PutGet(plan.memory, c, Copied(byText.value, c, k, env), c);
    } else if existing.Some? && !(allow && k in stores.previous) {
      PutGet(plan.next, k, existing.value, k);
    }
  }

  /** Deciding another key leaves this one decided. */
  lemma StaysDecided(env: Setting, allow: bool, stores: Stores, plan: Plan, plan': Plan, k: string, t: string, q: string, c: string)
    requires Decided(env, allow, stores, plan, k, t) && k != q && F.OnlyAt(plan, plan', q, c) && CacheKeyOf(env, k, t) != c
    requires plan'.pending == plan.pending || (exists x: B.Item :: x.key == q && plan'.pending == plan.pending + [x])
    ensures Decided(env, allow, stores, plan', k, t)
  {
    if plan'.pending != plan.pending {
      var x: B.Item :| x.key == q && plan'.pending == plan.pending + [x];
      F.PendingAppend(plan.pending, x);
    }
  }

  /** After the first loop every source key is decided. */
  lemma {:induction false} AllDecided(env: Setting, allow: bool, stores: Stores, source: Entries<string>)
    requires F.GoodKeys(env) && Distinct(source) && F.MemoryOk(stores.memory)
    ensures forall i :: 0 <= i < |source| ==>
      Decided(env, allow, stores, PlanKeys(env, allow, stores, source), source[i].0, source[i].1)
    decreases |source|
  {
    hide F.GoodKeys, F.MemoryOk, F.Planned, F.Untouched, F.OnlyAt, PlanKey, Decided, CacheKeyOf;
    if source != [] {
      var n := |source| - 1;
      var k, t := source[n].0, source[n].1;
      var plan := PlanKeys(env, allow, stores, source[..n]);
      var plan' := PlanKey(env, allow, stores, plan, k, t);
      GetLast(source, k);
      AllDecided(env, allow, stores, source[..n]);
      F.PlanProgress(env, allow, stores, source[..n]);
      NotInFront(source);
      NewIsUntouched(env, allow, stores, source[..n], plan, k, t);
      DecidesKey(env, allow, stores, plan, k, t);
      F.PlanKeyOnlyAt(env, allow, stores, plan, k, t);
      AppendsOwn(env, allow, stores, plan, k, t);
      forall i | 0 <= i < n ensures Decided(env, allow, stores, plan', source[i].0, source[i].1) {
        assert source[..n][i] == source[i];
        OwnCacheKey(env, source[i].0, source[i].1, k, t);
        StaysDecided(env, allow, stores, plan, plan', source[i].0, source[i].1, k, CacheKeyOf(env, k, t));
      }
    }
  }

  lemma NewIsUntouched(env: Setting, allow: bool, stores: Stores, source: Entries<string>, plan: Plan, k: string, t: string)
    requires F.Planned(env, allow, stores, source, plan) && k !in Keys(source)
    ensures F.Untouched(env, stores, plan, k, t) && k !in T.KeysOf(plan.pending)
  {
    NotPending(env, source, plan.pending, k);
  }

  lemma OwnCacheKey(env: Setting, k: string, t: string, q: string, u: string)
    requires F.GoodKeys(env) && k != q
    ensures CacheKeyOf(env, k, t) != CacheKeyOf(env, q, u)
  {
  }

  lemma AppendsOwn(env: Setting, allow: bool, stores: Stores, plan: Plan, k: string, t: string)
    ensures var plan' := PlanKey(env, allow, stores, plan, k, t);
      plan'.pending == plan.pending || (exists x: B.Item :: x.key == k && plan'.pending == plan.pending + [x])
  {
  }

  lemma NotInFront(source: Entries<string>)
    requires source != [] && Distinct(source)
    ensures source[|source| - 1].0 !in Keys(source[..|source| - 1])
  {
  }

  lemma NotPending(env: Setting, source: Entries<string>, items: B.Batch, k: string)
    requires F.ItemsOk(env, source, items) && k !in Keys(source)
    ensures k !in T.KeysOf(items)
  {
  }

  /** Items are in the order of the source. */
  ghost predicate InOrder(items: B.Batch, source: Entries<string>) {
    items == [] || (source != [] &&
      if LastIs(items, source) then InOrder(items[..|items| - 1], source[..|source| - 1])
      else InOrder(items, source[..|source| - 1]))
  }

  predicate LastIs(items: B.Batch, source: Entries<string>)
    requires items != [] && source != []
  {
    (items[|items| - 1].key, items[|items| - 1].text) == source[|source| - 1]
  }

  lemma {:induction false} PendingInOrder(env: Setting, allow: bool, stores: Stores, source: Entries<string>)
    requires F.GoodKeys(env) && Distinct(source) && F.MemoryOk(stores.memory)
    ensures InOrder(PlanKeys(env, allow, stores, source).pending, source)
    decreases |source|
  {
    if source != [] {
      var n := |source| - 1;
      var items := PlanKeys(env, allow, stores, source[..n]).pending;
      GetLast(source, source[n].0);
      PendingInOrder(env, allow, stores, source[..n]);
      F.PlanProgress(env, allow, stores, source[..n]);
      NotInFront(source);
      NotPending(env, source[..n], items, source[n].0);
      var items' := PlanKeys(env, allow, stores, source).pending;
      if items' != items {
        assert items'[..|items|] == items;
      } else if items != [] {
        assert items[|items| - 1].key in T.KeysOf(items);
      }
    }
  }

  // ---- falling back without a provider ----

  /** Without a provider a pending key has its English text and is a fallback; all other keys stay as decided. */
  lemma FallsBackToEnglish(env: Setting, options: Options, files: Files, source: Entries<string>, o: nat -> T.Outcome, at: nat, i: nat)
    requires F.GoodKeys(env) && Distinct(source) && !options.allowTranslate && i < |source|
    ensures var plan := PlanKeys(env, false, StoresOf(files), source);
      var r := FinalPlan(env, options, files, source, o, at);
      var k := source[i].0;
      && r.Got? && r.at == at && r.plan.memory == plan.memory
      && if k in T.KeysOf(plan.pending) then Get(r.plan.next, k) == Some(source[i].1) && Get(r.plan.fallback, k).Some?
         else Get(r.plan.next, k) == Get(plan.next, k) && Get(r.plan.fallback, k) == Get(plan.fallback, k)
  {
    hide F.GoodKeys, F.MemoryOk, PlanKeys, FallBack, LoadMemory, F.Planned, F.ItemsOk, F.FellBack, T.KeysOf, StoresOf;
    var stores := StoresOf(files);
    var plan := PlanKeys(env, false, stores, source);
    var k := source[i].0;
    F.LoadMemoryOk(files.memory);
    StoresLoad(files);
    F.PlanProgress(env, false, stores, source);
    PlannedItems(env, stores, source, plan);
    forall q | q in T.KeysOf(plan.pending) ensures Get(stores.existing, q).None? && Get(plan.next, q).None? {
      PendingIsOpen(env, stores, source, plan, q);
    }
    F.BareFallBack(env, stores, source, plan, plan.pending);
    SameFallBack(options.force, stores, plan, plan.pending);
    GetAt(source, i);
    FellBackAt(source, plan, FallBack(false, stores, plan, plan.pending), T.KeysOf(plan.pending), k);
  }

  /**
   The last loop for any plan and items of different keys: a key with a value keeps it; an open one keeps its old text,
   unless forced, and is a fallback if it was one; otherwise it has its English text and is a fallback.
   */
  lemma {:induction false} FallBackSays(force: bool, stores: Stores, plan: Plan, items: B.Batch, i: nat)
    requires i < |items| && forall j, l :: 0 <= j < l < |items| ==> items[j].key != items[l].key
    ensures var r := FallBack(force, stores, plan, items);
      var k, was := items[i].key, Get(stores.existing, items[i].key);
      if Get(plan.next, k).Some? then Get(r.next, k) == Get(plan.next, k) && Get(r.fallback, k) == Get(plan.fallback, k)
      else if was.Some? && !force then
        Get(r.next, k) == was && (Get(r.fallback, k).Some? <==> Get(plan.fallback, k).Some? || k in stores.previous)
      else Get(r.next, k) == Some(items[i].text) && Get(r.fallback, k).Some?
    decreases |items|
  {
    var plan' := FallBackOne(force, stores, plan, items[0]);
    var rest := items[1..];
    assert forall j :: 0 <= j < |rest| ==> rest[j] == items[j + 1];
    if i == 0 {
      OthersStay(force, stores, plan', rest, items[0].key);
    } else {
      FallBackSays(force, stores, plan', rest, i - 1);
    }
    OneFallsBack(force, stores, plan, items[0], items[i].key);
  }

  /** One step of the loop, for its own key and for any other. */
  lemma OneFallsBack(force: bool, stores: Stores, plan: Plan, item: B.Item, k: string)
    ensures var r := FallBackOne(force, stores, plan, item);
      var was := Get(stores.existing, item.key);
      if k != item.key || Get(plan.next, k).Some? then Get(r.next, k) == Get(plan.next, k) && Get(r.fallback, k) == Get(plan.fallback, k)
      else if was.Some? && !force then
        Get(r.next, k) == was && (Get(r.fallback, k).Some? <==> Get(plan.fallback, k).Some? || k in stores.previous)
      else Get(r.next, k) == Some(item.text) && Get(r.fallback, k).Some?
  {
    PutGet(plan.fallback, item.key, (), k);
    PutGet(plan.next, item.key, item.text, k);
    if Get(stores.existing, item.key).Some? { PutGet(plan.next, item.key, Get(stores.existing, item.key).value, k); }
  }

  lemma {:induction false} OthersStay(force: bool, stores: Stores, plan: Plan, items: B.Batch, k: string)
    requires forall j :: 0 <= j < |items| ==> items[j].key != k
    ensures var r := FallBack(force, stores, plan, items);
      Get(r.next, k) == Get(plan.next, k) && Get(r.fallback, k) == Get(plan.fallback, k)
    decreases |items|
  {
    if items != [] {
      OneFallsBack(force, stores, plan, items[0], k);
      OthersStay(force, stores, FallBackOne(force, stores, plan, items[0]), items[1..], k);
    }
  }

  lemma StoresLoad(files: Files)
    ensures StoresOf(files).memory == LoadMemory(files.memory)
  {
  }

  lemma PlannedItems(env: Setting, stores: Stores, source: Entries<string>, plan: Plan)
    requires F.Planned(env, false, stores, source, plan)
    ensures F.ItemsOk(env, source, plan.pending) && Distinct(plan.fallback)
  {
  }

  lemma FellBackAt(source: Entries<string>, plan: Plan, p: Plan, keys: set<string>, k: string)
    requires F.FellBack(source, plan, p, keys) && (k in keys ==> Get(plan.next, k).None? && Get(source, k).Some?)
    ensures p.memory == plan.memory
    ensures if k in keys then Get(p.next, k) == Get(source, k) && Get(p.fallback, k).Some?
      else Get(p.next, k) == Get(plan.next, k) && Get(p.fallback, k) == Get(plan.fallback, k)
  {
    if k !in keys && Get(plan.fallback, k).Some? {
      assert Get(p.fallback, k).value == () == Get(plan.fallback, k).value;
    }
  }

  lemma PendingIsOpen(env: Setting, stores: Stores, source: Entries<string>, plan: Plan, q: string)
    requires F.Planned(env, false, stores, source, plan) && q in T.KeysOf(plan.pending)
    ensures Get(stores.existing, q).None? && Get(plan.next, q).None?
  {
    var j :| 0 <= j < |plan.pending| && plan.pending[j].key == q;
    var l :| 0 <= l < |source| && source[l] == (plan.pending[j].key, plan.pending[j].text);
    assert F.KeyOpen(env, false, stores, plan, source[l].0, source[l].1);
  }

  /** Forcing makes no difference to keys that the table does not have. */
  lemma {:induction false} SameFallBack(force: bool, stores: Stores, plan: Plan, items: B.Batch)
    requires forall q :: q in T.KeysOf(items) ==> Get(stores.existing, q).None?
    ensures FallBack(force, stores, plan, items) == FallBack(false, stores, plan, items)
    decreases |items|
  {
    if items != [] {
      assert items[0].key in T.KeysOf(items);
      forall q | q in T.KeysOf(items[1..]) ensures q in T.KeysOf(items) {
        var i :| 0 <= i < |items[1..]| && items[1..][i].key == q;
        assert items[i + 1].key == q;
      }
      SameFallBack(force, stores, FallBackOne(force, stores, plan, items[0]), items[1..]);
    }
  }

  // ---- new memory entries ----

  /** The item has a value, and an entry that says all about it. */
  ghost predicate Recorded(env: Setting, now: string, plan: Plan, item: B.Item) {
    var value := Get(plan.next, item.key);
    value.Some? && Get(plan.memory, item.cacheKey) == Some(TmEntry(
      item.cacheKey, env.model, env.provider, item.key, env.sourcePath, "en",
      item.text, item.textHash, env.locale, value.value, now))
  }

  ghost predicate Apart(items: B.Batch) {
    forall i, j :: 0 <= i < j < |items| ==> items[i].key != items[j].key && items[i].cacheKey != items[j].cacheKey
  }

  /** Of the batch each item is recorded with its translation, and what was recorded before stays. */
  lemma {:induction false} ApplyRecords(env: Setting, now: string, plan: Plan, done: B.Batch, batch: B.Batch, m: map<string, string>)
    requires Apart(done + batch) && forall i :: 0 <= i < |done| ==> Recorded(env, now, plan, done[i])
    requires forall i :: 0 <= i < |batch| ==> batch[i].key in m && m[batch[i].key] != ""
    ensures forall i :: 0 <= i < |done + batch| ==> Recorded(env, now, Apply(env, now, plan, batch, m), (done + batch)[i])
    decreases |batch|
  {
    if batch == [] {
      assert done + batch == done;
    } else {
      var item := batch[0];
      var value := m[item.key];
      var plan' := plan.(next := Put(plan.next, item.key, value),
                         memory := Put(plan.memory, item.cacheKey, Entry(env, now, item, value)));
      assert done + batch == (done + [item]) + batch[1..];
      forall i | 0 <= i < |done + [item]| ensures Recorded(env, now, plan', (done + [item])[i]) {
        RecordedPut(env, now, plan, item, value, (done + [item])[i]);
        if i < |done| { assert (done + batch)[i] == done[i] && (done + batch)[|done|] == item; }
      }
      ApplyRecords(env, now, plan', done + [item], batch[1..], m);
    }
  }

  lemma RecordedPut(env: Setting, now: string, plan: Plan, item: B.Item, value: string, other: B.Item)
    ensures var plan' := plan.(next := Put(plan.next, item.key, value),
                               memory := Put(plan.memory, item.cacheKey, Entry(env, now, item, value)));
      && Recorded(env, now, plan', item)
      && (Recorded(env, now, plan, other) && other.key != item.key && other.cacheKey != item.cacheKey ==> Recorded(env, now, plan', other))
  {
    PutGet(plan.next, item.key, value, item.key);
    PutGet(plan.next, item.key, value, other.key);
    PutGet(plan.memory, item.cacheKey, Entry(env, now, item, value), item.cacheKey);
    PutGet(plan.memory, item.cacheKey, Entry(env, now, item, value), other.cacheKey);
  }

  lemma {:induction false} BatchesRecord(env: Setting, now: string, o: nat -> T.Outcome, at: nat, plan: Plan, done: B.Batch,
                                         batches: seq<B.Batch>)
    requires Apart(done + B.Flatten(batches)) && forall i :: 0 <= i < |done| ==> Recorded(env, now, plan, done[i])
    ensures var r := ApplyBatches(env, now, o, at, plan, batches);
      r.Got? ==> forall i :: 0 <= i < |done + B.Flatten(batches)| ==> Recorded(env, now, r.plan, (done + B.Flatten(batches))[i])
    decreases |batches|
  {
    if batches == [] {
      assert done + B.Flatten(batches) == done;
    } else {
      var first, rest := batches[0], B.Flatten(batches[1..]);
      var t := T.Translate(o, at, first);
      assert done + B.Flatten(batches) == (done + first) + rest;
      if t.result.Done? {
        TranslatedAll(o, at, first);
        ApartFront(done + first, rest);
        ApplyRecords(env, now, plan, done, first, t.result.translated);
        BatchesRecord(env, now, o, t.next, Apply(env, now, plan, first, t.result.translated), done + first, batches[1..]);
      }
    }
  }

  lemma ApartFront(a: B.Batch, b: B.Batch)
    requires Apart(a + b)
    ensures Apart(a)
  {
    forall i, j | 0 <= i < j < |a| ensures a[i].key != a[j].key && a[i].cacheKey != a[j].cacheKey {
      assert (a + b)[i] == a[i] && (a + b)[j] == a[j];
    }
  }

  lemma TranslatedAll(o: nat -> T.Outcome, at: nat, items: B.Batch)
    requires T.Translate(o, at, items).result.Done?
    ensures forall i :: 0 <= i < |items| ==>
      items[i].key in T.Translate(o, at, items).result.translated && T.Translate(o, at, items).result.translated[items[i].key] != ""
  {
    forall i | 0 <= i < |items|
      ensures items[i].key in T.Translate(o, at, items).result.translated && T.Translate(o, at, items).result.translated[items[i].key] != ""
    {
      assert items[i].key in T.KeysOf(items);
      T.ValueAnswered(o, at, items, items[i].key);
    }
  }

  /**
   After a run with a provider every key that was pending has an entry with its text, hash and languages, the
   provider and model, and the translation that is its value.
   */
  lemma PendingAreRecorded(env: Setting, options: Options, files: Files, source: Entries<string>, o: nat -> T.Outcome, at: nat, i: nat)
    requires F.GoodKeys(env) && Distinct(source) && options.allowTranslate
    requires i < |PlanKeys(env, true, StoresOf(files), source).pending|
    ensures var r := FinalPlan(env, options, files, source, o, at);
      r.Got? ==> Recorded(env, options.now, r.plan, PlanKeys(env, true, StoresOf(files), source).pending[i])
  {
    hide PlanKeys, ApplyBatches, FallBack, F.MemoryOk, LoadMemory, F.Progress;
    var stores := StoresOf(files);
    var plan := PlanKeys(env, true, stores, source);
    var batches := B.Pack(plan.pending, env.budget);
    F.LoadMemoryOk(files.memory);
    F.PlanProgress(env, true, stores, source);
    B.PackIsGreedyPartition(plan.pending, env.budget);
    PendingApart(env, source, plan.pending);
    assert [] + plan.pending == plan.pending;
    BatchesRecord(env, options.now, o, at, plan, [], batches);
    var t := ApplyBatches(env, options.now, o, at, plan, batches);
    if t.Got? { NothingFallsBack(env, options, stores, t.plan, plan.pending); }
  }

  lemma PendingApart(env: Setting, source: Entries<string>, items: B.Batch)
    requires F.GoodKeys(env) && F.ItemsOk(env, source, items) && F.DistinctKeys(items)
    ensures Apart(items)
  {
    forall i, j | 0 <= i < j < |items| ensures items[i].key != items[j].key && items[i].cacheKey != items[j].cacheKey {
      assert F.ItemOk(env, items[i]) && F.ItemOk(env, items[j]);
    }
  }

  lemma {:induction false} NothingFallsBack(env: Setting, options: Options, stores: Stores, plan: Plan, items: B.Batch)
    requires forall i :: 0 <= i < |items| ==> Get(plan.next, items[i].key).Some?
    ensures FallBack(options.force, stores, plan, items) == plan
    decreases |items|
  {
    if items != [] {
      assert forall i :: 0 <= i < |items[1..]| ==> items[1..][i] == items[i + 1];
      NothingFallsBack(env, options, stores, plan, items[1..]);
    }
  }

  // ---- provider and model ----

  /** Provider and model under the environment variables. */
  lemma VariablesSay(v: Variables)
    ensures ConfiguredProvider(v) == "anthropic" <==> v.provider == "anthropic" || (v.provider == "" && !v.openaiKey && v.anthropicKey)
    ensures v.provider != "" ==> ConfiguredProvider(v) == v.provider
    ensures v.provider == "" && (v.openaiKey || !v.anthropicKey) ==> ConfiguredProvider(v) == "openai"
    ensures ConfiguredModel(v) == "claude-opus-4-6" || ConfiguredModel(v) == "gpt-5.5" || ConfiguredModel(v) == v.model
    ensures v.model != "" ==> ConfiguredModel(v) == v.model
    ensures v.model == "" ==> (ConfiguredModel(v) == "claude-opus-4-6" <==> ConfiguredProvider(v) == "anthropic")
    ensures HasProvider(v) <==> v.openaiKey || v.anthropicKey
  {
    assert "claude-opus-4-6"[0] == 'c' && "gpt-5.5"[0] == 'g' && |"anthropic"| == 9 && |"openai"| == 6;
  }

  // ---- metadata and files ----

  lemma {:induction false} InsertLength<V>(m: Entries<V>, e: (string, V))
    ensures |Insert(m, e)| == |m| + 1
  {
    if m != [] && !Before(e.0, m[0].0) { InsertLength(m[1..], e); }
  }

  lemma {:induction false} SortLength<V>(m: Entries<V>)
    ensures |SortByKey(m)| == |m|
  {
    if m != [] {
      SortLength(m[1..]);
      InsertLength(SortByKey(m[1..]), m[0]);
    }
  }

  /**
   The metadata after a run: the fallbacks, each once, and what remains as translated; provider and model of the
   run if it has a provider, else the old ones; and the old date when nothing else differs from the old metadata.
   */
  lemma MetaSays(env: Setting, options: Options, previous: Option<Meta>, sourceHash: string, total: nat, fallback: KeySet)
    requires Distinct(fallback)
    ensures var meta := NextMeta(env, options, previous, sourceHash, total, fallback);
      && (forall k :: k in meta.fallbackKeys <==> Get(fallback, k).Some?) && |meta.fallbackKeys| == |fallback|
      && (forall i, j :: 0 <= i < j < |meta.fallbackKeys| ==> Before(meta.fallbackKeys[i], meta.fallbackKeys[j]))
      && meta.translatedKeys + |fallback| == total && meta.totalKeys == total
      && meta.locale == env.locale && meta.sourceHash == sourceHash && meta.workflow == 1
      && (options.allowTranslate ==> meta.provider == env.provider && meta.model == env.model)
      && (!options.allowTranslate && previous.Some? ==> meta.provider == previous.value.provider && meta.model == previous.value.model)
      && (!options.allowTranslate && previous.None? ==> meta.provider == "" && meta.model == "")
      && meta.generatedAt == (if previous.Some? && meta == previous.value then previous.value.generatedAt else options.now)
      && (previous.Some? && meta.(generatedAt := previous.value.generatedAt) == previous.value ==> meta == previous.value)
  {
    SortLength(fallback);
    SortKeeps(fallback);
    forall k { F.SortedKeysHold(fallback, k); }
  }

  /** The lines of the memory file are in the order of the cache keys. */
  lemma SavedInOrder(m: Memory)
    requires F.MemoryOk(m)
    ensures |SaveMemory(m)| == |m|
    ensures forall i, j :: 0 <= i < j < |m| ==> Before(SaveMemory(m)[i].cacheKey, SaveMemory(m)[j].cacheKey)
  {
    var sorted := SortByKey(m);
    SortKeeps(m);
    SortLength(m);
    forall i | 0 <= i < |m| ensures sorted[i].1.cacheKey == sorted[i].0 {
      SortedDistinct(sorted);
      GetAt(sorted, i);
      GetKeys(m, sorted[i].0);
      var j :| 0 <= j < |m| && m[j].0 == sorted[i].0;
      GetAt(m, j);
    }
  }

  /** The other files: every source key in order with its value, the glossary kept unless it is empty, and the memory. */
  lemma FilesSay(env: Setting, options: Options, files: Files, source: Entries<string>, sourceHash: string, plan: Plan)
    requires Distinct(source) && Rebuildable(Keys(source)) && F.MemoryOk(plan.memory)
    requires forall i :: 0 <= i < |source| ==> Get(plan.next, source[i].0).Some?
    ensures var written := Expected(env, options, files, source, sourceHash, plan);
      && written.table.Some? && (forall i :: 0 <= i < |source| ==> Get(Flatten(written.table.value), source[i].0) == Get(plan.next, source[i].0))
      && written.glossary == (if files.glossary.Some? && files.glossary.value != [] then files.glossary else Some(env.defaultGlossary))
      && (forall c :: Get(LoadMemory(written.memory), c) == Get(plan.memory, c))
      && forall i, j :: 0 <= i < j < |written.memory| ==> Before(written.memory[i].cacheKey, written.memory[j].cacheKey)
  {
    SavedInOrder(plan.memory);
    F.NextFlatMap(source, plan.next);
    FlattenRebuild(NextFlat(source, plan.next));
    F.SaveLoad(plan.memory);
  }

  /**
   A sync throws exactly when a batch does, or when some source text and its value have different placeholders;
   otherwise it reports a change exactly when the expected files differ, and then writes them if asked to.
   */
  lemma SyncSays(env: Setting, options: Options, source: Forest, sourceHash: string, files: Files, o: nat -> T.Outcome, at: nat)
    requires F.GoodKeys(env)
    ensures var flat := Flatten(source);
      var final, r := FinalPlan(env, options, files, flat, o, at), Sync(env, options, source, sourceHash, files, o, at);
      && r.at == final.at
      && (r.outcome.Threw? <==> final.Thrown? || SomeDiffers(env, flat, final.plan.next))
      && (r.outcome.Threw? ==> r.files == files)
      && (r.outcome.Synced? ==>
            var expected := Expected(env, options, files, flat, sourceHash, final.plan);
            && r.outcome.changed == (expected != files) && r.outcome.fallbackCount == |final.plan.fallback|
            && r.outcome.wrote == (expected != files && !options.checkOnly && options.write)
            && r.files == (if r.outcome.wrote then expected else files))
  {
    var flat := Flatten(source);
    PutAllDistinct([], LocaleTree.Emit(source, ""));
    F.FinalPlanDone(env, options, files, flat, o, at);
    var final := FinalPlan(env, options, files, flat, o, at);
    if final.Got? {
      forall i | 0 <= i < |flat| ensures Get(final.plan.next, flat[i].0).Some? {
        assert F.KeyDone(env, options.allowTranslate, StoresOf(files), final.plan, flat[i].0, flat[i].1);
      }
      SortLength(final.plan.fallback);
      FallbackCount(env, options, files.meta, sourceHash, |flat|, final.plan.fallback);
    }
  }

  predicate SomeDiffers(env: Setting, flat: Entries<string>, next: Entries<string>) {
    exists i :: 0 <= i < |flat| && Differs(env, flat[i].1, Get(next, flat[i].0))
  }

  predicate Differs(env: Setting, text: string, value: Option<string>) {
    value.Some? && env.placeholders(text) != env.placeholders(value.value)
  }

  lemma FallbackCount(env: Setting, options: Options, previous: Option<Meta>, sourceHash: string, total: nat, fallback: KeySet)
    requires Distinct(fallback)
    ensures |NextMeta(env, options, previous, sourceHash, total, fallback).fallbackKeys| == |fallback|
  {
    MetaSays(env, options, previous, sourceHash, total, fallback);
  }
}
