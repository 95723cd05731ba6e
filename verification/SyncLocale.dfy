/**
 `syncLocale`: bringing one locale's table, metadata, glossary and translation memory up to date with
 the English source, from four stores: the existing table, the previous fallback list, and the memory by
 cache key and by text hash.
 */
module SyncLocale {
  import opened Text
  import opened OrderedMap
  import opened LocaleTree
  import O = LocaleTable
  import opened Sorting
  import B = Batches
  import T = Translate

  datatype TmEntry = TmEntry(
    cacheKey: string, model: string, provider: string, segmentId: string, sourcePath: string, srcLang: string,
    text: string, textHash: string, tgtLang: string, translated: string, updatedAt: string)

  type Memory = Entries<TmEntry>

  /** A JavaScript `Set` of keys. */
  type KeySet = Entries<()>

  datatype Meta = Meta(
    fallbackKeys: seq<string>, generatedAt: string, locale: string, model: string, provider: string,
    sourceHash: string, totalKeys: nat, translatedKeys: int, workflow: nat)

  /** The four files of a locale; a missing memory file reads like an empty one. */
  datatype Files = Files(
    table: Option<Forest>, meta: Option<Meta>, glossary: Option<seq<(string, string)>>, memory: seq<TmEntry>)

  /**
   What the environment fixes: locale, provider and model, hashing, and the placeholders of a text.  The cache
   key is a hash over provider, model, key and text hash.
   */
  datatype Setting = Setting(
    locale: string, sourcePath: string, provider: string, model: string, budget: real,
    hashText: string -> string, cacheKey: (string, string, string, string) -> string, placeholders: string -> set<string>,
    defaultGlossary: seq<(string, string)>)

  /** What may differ from run to run. */
  datatype Options = Options(allowTranslate: bool, force: bool, checkOnly: bool, write: bool, now: string)

  const SOURCE_LOCALE := "en"
  const WORKFLOW: nat := 1

  // ---- provider and model ----

  /** The environment variables, trimmed, empty when not set; of the two keys only whether they are set matters. */
  datatype Variables = Variables(provider: string, model: string, openaiKey: bool, anthropicKey: bool)

  const DEFAULT_PROVIDER := "openai"
  const DEFAULT_OPENAI_MODEL := "gpt-5.5"
  const DEFAULT_ANTHROPIC_MODEL := "claude-opus-4-6"

  function ConfiguredProvider(v: Variables): string {
    if v.provider != "" then v.provider
    else if v.openaiKey then "openai"
    else if v.anthropicKey then "anthropic"
    else DEFAULT_PROVIDER
  }

  function ConfiguredModel(v: Variables): string {
    if v.model != "" then v.model
    else if ConfiguredProvider(v) == "anthropic" then DEFAULT_ANTHROPIC_MODEL
    else DEFAULT_OPENAI_MODEL
  }

  predicate HasProvider(v: Variables) {
    v.openaiKey || v.anthropicKey
  }

  /** The setting of a locale under the variables. */
  function Configured(env: Setting, v: Variables): Setting {
    env.(provider := ConfiguredProvider(v), model := ConfiguredModel(v))
  }

  // ---- translation memory ----

  predicate Usable(e: TmEntry) {
    e.cacheKey != "" && !Blank(e.translated)
  }

  function LoadMemory(lines: seq<TmEntry>): Memory {
    if lines == [] then []
    else
      var m := LoadMemory(lines[..|lines| - 1]);
      var e := lines[|lines| - 1];
      if Usable(e) then Put(m, e.cacheKey, e) else m
  }

  function Values<V>(m: Entries<V>): seq<V> {
    seq(|m|, i requires 0 <= i < |m| => m[i].1)
  }

  /** `renderTranslationMemory`: one line an entry, in the order of the cache keys. */
  function SaveMemory(m: Memory): seq<TmEntry> {
    Values(SortByKey(m))
  }

  predicate Eligible(e: TmEntry, locale: string, textHash: string) {
    e.tgtLang == locale && e.textHash != "" && !Blank(e.translated) && e.textHash == textHash
  }

  /** The last entry for the locale with the text hash. */
  function ByTextHash(m: Memory, locale: string, textHash: string): Option<TmEntry> {
    if m == [] then None
    else
      var e := m[|m| - 1].1;
      if Eligible(e, locale, textHash) then Some(e) else ByTextHash(m[..|m| - 1], locale, textHash)
  }

  method BuildTranslationMemoryByTextHash(entries: Memory, locale: string) returns (byTextHash: map<string, TmEntry>)
    ensures forall h :: ByTextHash(entries, locale, h) == if h in byTextHash then Some(byTextHash[h]) else None
  {
    byTextHash := map[];
    for i := 0 to |entries|
      invariant forall h ::
        ByTextHash(entries[..i], locale, h) == if h in byTextHash then Some(byTextHash[h]) else None
    {
      var entry := entries[i].1;
      assert entries[..i + 1][..i] == entries[..i];
      if entry.tgtLang != locale || entry.textHash == "" || Blank(entry.translated) {
        continue;
      }
      byTextHash := byTextHash[entry.textHash := entry];
    }
    assert entries[..|entries|] == entries;
  }

  // ---- the decision for one key ----

  datatype Stores = Stores(memory: Memory, existing: Entries<string>, previous: seq<string>)

  datatype Plan = Plan(next: Entries<string>, memory: Memory, pending: B.Batch, fallback: KeySet)

  function Copied(e: TmEntry, cacheKey: string, key: string, env: Setting): TmEntry {
    e.(cacheKey := cacheKey, segmentId := key, sourcePath := env.sourcePath)
  }

  function CacheKey(env: Setting, key: string, textHash: string): string {
    env.cacheKey(env.provider, env.model, key, textHash)
  }

  function CacheKeyOf(env: Setting, key: string, text: string): string {
    CacheKey(env, key, env.hashText(text))
  }

  function PlanKey(env: Setting, allow: bool, stores: Stores, plan: Plan, key: string, text: string): Plan {
    var textHash := env.hashText(text);
    var cacheKey := CacheKey(env, key, textHash);
    var cached := Get(plan.memory, cacheKey);
    var cachedByText := ByTextHash(stores.memory, env.locale, textHash);
    var existing := Get(stores.existing, key);
    var refresh := key in stores.previous;
    if cached.Some? && !(allow && refresh) then
      plan.(next := Put(plan.next, key, cached.value.translated),
            fallback := if refresh then Put(plan.fallback, key, ()) else plan.fallback)
    else if cachedByText.Some? && (refresh || existing.None?) then
      plan.(next := Put(plan.next, key, cachedByText.value.translated),
            memory := Put(plan.memory, cacheKey, Copied(cachedByText.value, cacheKey, key, env)))
    else if existing.Some? && !(allow && refresh) then
      plan.(next := Put(plan.next, key, existing.value),
            fallback := if refresh then Put(plan.fallback, key, ()) else plan.fallback)
    else
      plan.(pending := plan.pending + [B.Item(cacheKey, key, text, textHash)])
  }

  function PlanKeys(env: Setting, allow: bool, stores: Stores, source: Entries<string>): Plan
    decreases |source|
  {
    if source == [] then Plan([], stores.memory, [], [])
    else
      var n := |source| - 1;
      PlanKey(env, allow, stores, PlanKeys(env, allow, stores, source[..n]), source[n].0, source[n].1)
  }

  // ---- translated batches ----

  function Entry(env: Setting, now: string, item: B.Item, value: string): TmEntry {
    TmEntry(item.cacheKey, env.model, env.provider, item.key, env.sourcePath, SOURCE_LOCALE,
            item.text, item.textHash, env.locale, value, now)
  }

  function Apply(env: Setting, now: string, plan: Plan, batch: B.Batch, translated: map<string, string>): Plan
    decreases |batch|
  {
    if batch == [] then plan
    else
      var item := batch[0];
      var plan' :=
        if item.key in translated && translated[item.key] != "" then
          plan.(next := Put(plan.next, item.key, translated[item.key]),
                memory := Put(plan.memory, item.cacheKey, Entry(env, now, item, translated[item.key])))
        else plan;
      Apply(env, now, plan', batch[1..], translated)
  }

  datatype Translated = Thrown(at: nat) | Got(plan: Plan, at: nat)

  /** All batches in order; an error ends the run. `at` counts the prompts used. */
  function ApplyBatches(env: Setting, now: string, o: nat -> T.Outcome, at: nat, plan: Plan, batches: seq<B.Batch>): Translated
    decreases |batches|
  {
    if batches == [] then Got(plan, at)
    else
      var t := T.Translate(o, at, batches[0]);
      match t.result
      case Fail(_) => Thrown(t.next)
      case Done(m) => ApplyBatches(env, now, o, t.next, Apply(env, now, plan, batches[0], m), batches[1..])
  }

  /** A pending key that is still open keeps its old text or falls back to English. */
  function FallBackOne(force: bool, stores: Stores, plan: Plan, item: B.Item): Plan {
    var existing := Get(stores.existing, item.key);
    if Get(plan.next, item.key).Some? then plan
    else if existing.Some? && !force then
      plan.(next := Put(plan.next, item.key, existing.value),
            fallback := if item.key in stores.previous then Put(plan.fallback, item.key, ()) else plan.fallback)
    else
      plan.(next := Put(plan.next, item.key, item.text), fallback := Put(plan.fallback, item.key, ()))
  }

  /** The last loop. */
  function FallBack(force: bool, stores: Stores, plan: Plan, items: B.Batch): Plan
    decreases |items|
  {
    if items == [] then plan else FallBack(force, stores, FallBackOne(force, stores, plan, items[0]), items[1..])
  }

  // ---- the files that should be there ----

  function GetOr(m: Entries<string>, k: string, default: string): string {
    match Get(m, k) case Some(v) => v case None => default
  }

  /** `assertPlaceholderParity` does not throw. */
  predicate Parity(env: Setting, source: Entries<string>, next: Entries<string>) {
    forall i :: 0 <= i < |source| ==>
      env.placeholders(source[i].1) == env.placeholders(GetOr(next, source[i].0, ""))
  }

  /** The entries of the next table: every source key with its new value, in source order. */
  function NextFlat(source: Entries<string>, next: Entries<string>): Entries<string> {
    seq(|source|, i requires 0 <= i < |source| => (source[i].0, GetOr(next, source[i].0, source[i].1)))
  }

  function SortedKeys(s: KeySet): seq<string> {
    var sorted := SortByKey(s);
    seq(|sorted|, i requires 0 <= i < |sorted| => sorted[i].0)
  }

  function NextMeta(env: Setting, options: Options, previous: Option<Meta>, sourceHash: string, total: nat, fallback: KeySet): Meta {
    var provider := if options.allowTranslate then env.provider else if previous.Some? then previous.value.provider else "";
    var model := if options.allowTranslate then env.model else if previous.Some? then previous.value.model else "";
    var keys := SortedKeys(fallback);
    var meta := Meta(keys, options.now, env.locale, model, provider, sourceHash, total, total - |keys|, WORKFLOW);
    if previous.Some? && meta.(generatedAt := previous.value.generatedAt) == previous.value then previous.value else meta
  }

  function LoadedGlossary(files: Files): seq<(string, string)> {
    if files.glossary.Some? then files.glossary.value else []
  }

  function Expected(env: Setting, options: Options, files: Files, source: Entries<string>, sourceHash: string, plan: Plan): Files {
    Files(
      Some(Rebuild(NextFlat(source, plan.next))),
      Some(NextMeta(env, options, files.meta, sourceHash, |source|, plan.fallback)),
      Some(if LoadedGlossary(files) == [] then env.defaultGlossary else LoadedGlossary(files)),
      SaveMemory(plan.memory))
  }

  function StoresOf(files: Files): Stores {
    Stores(LoadMemory(files.memory),
           if files.table.Some? then Flatten(files.table.value) else [],
           if files.meta.Some? then files.meta.value.fallbackKeys else [])
  }

  /** The plan after translating what a provider must translate, and after falling back. */
  function FinalPlan(env: Setting, options: Options, files: Files, source: Entries<string>, o: nat -> T.Outcome, at: nat): Translated {
    var stores := StoresOf(files);
    var plan := PlanKeys(env, options.allowTranslate, stores, source);
    var translated :=
      if options.allowTranslate then ApplyBatches(env, options.now, o, at, plan, B.Pack(plan.pending, env.budget))
      else Got(plan, at);
    match translated
    case Thrown(at) => Thrown(at)
    case Got(p, at) => Got(FallBack(options.force, stores, p, plan.pending), at)
  }

  datatype Outcome = Threw | Synced(changed: bool, wrote: bool, fallbackCount: nat)

  datatype Run = Run(outcome: Outcome, files: Files, at: nat)

  /** One run over the source table; `at` is the number of the next prompt. */
  function Sync(env: Setting, options: Options, source: Forest, sourceHash: string, files: Files, o: nat -> T.Outcome, at: nat): Run {
    var flat := Flatten(source);
    match FinalPlan(env, options, files, flat, o, at)
    case Thrown(at) => Run(Threw, files, at)
    case Got(plan, at) =>
      if !Parity(env, flat, plan.next) then Run(Threw, files, at)
      else
        var expected := Expected(env, options, files, flat, sourceHash, plan);
        var changed := expected != files;
        var wrote := changed && !options.checkOnly && options.write;
        Run(Synced(changed, wrote, |expected.meta.value.fallbackKeys|), if wrote then expected else files, at)
  }

  // ---- the program ----

  class Locale {
    var files: Files

    constructor (files: Files)
      ensures this.files == files
    {
      this.files := files;
    }

    /** The loop over the source keys. */
    static method DecideKeys(env: Setting, allow: bool, stores: Stores, source: Entries<string>) returns (plan: Plan)
      ensures plan == PlanKeys(env, allow, stores, source)
    {
      var tmByTextHash := BuildTranslationMemoryByTextHash(stores.memory, env.locale);
      var next: Entries<string>, tm, pending: B.Batch, fallbackKeys: KeySet := [], stores.memory, [], [];
      for i := 0 to |source|
        invariant Plan(next, tm, pending, fallbackKeys) == PlanKeys(env, allow, stores, source[..i])
      {
        var (key, text) := source[i];
        assert source[..i + 1][..i] == source[..i];
        var textHash := env.hashText(text);
        var segmentCacheKey := CacheKey(env, key, textHash);
        var cached := Get(tm, segmentCacheKey);
        var existing := Get(stores.existing, key);
        var shouldRefreshFallback := key in stores.previous;
        assert ByTextHash(stores.memory, env.locale, textHash)
          == if textHash in tmByTextHash then Some(tmByTextHash[textHash]) else None;
        if cached.Some? && !(allow && shouldRefreshFallback) {
          next := Put(next, key, cached.value.translated);
          if shouldRefreshFallback {
            fallbackKeys := Put(fallbackKeys, key, ());
          }
          continue;
        }
        if textHash in tmByTextHash && (shouldRefreshFallback || existing == None) {
          var cachedByText := tmByTextHash[textHash];
          next := Put(next, key, cachedByText.translated);
          tm := Put(tm, segmentCacheKey, Copied(cachedByText, segmentCacheKey, key, env));
          continue;
        }
        if existing.Some? && !(allow && shouldRefreshFallback) {
          next := Put(next, key, existing.value);
          if shouldRefreshFallback {
            fallbackKeys := Put(fallbackKeys, key, ());
          }
          continue;
        }
        pending := pending + [B.Item(segmentCacheKey, key, text, textHash)];
      }
      assert source[..|source|] == source;
      plan := Plan(next, tm, pending, fallbackKeys);
    }

    static method ApplyTranslations(env: Setting, now: string, plan: Plan, batch: B.Batch, translated: map<string, string>)
      returns (r: Plan)
      ensures r == Apply(env, now, plan, batch, translated)
    {
      r := plan;
      for i := 0 to |batch|
        invariant Apply(env, now, r, batch[i..], translated) == Apply(env, now, plan, batch, translated)
      {
        var item := batch[i];
        assert batch[i..][1..] == batch[i + 1..];
        if item.key in translated && translated[item.key] != "" {
          var value := translated[item.key];
          r := r.(next := Put(r.next, item.key, value), memory := Put(r.memory, item.cacheKey, Entry(env, now, item, value)));
        }
      }
    }

    /** The loop over the batches; `None` when a batch throws.  The client is given back in either case. */
    static method TranslatePending(env: Setting, now: string, plan: Plan, access: T.ClientAccess) returns (r: Option<Plan>)
      modifies access
      ensures var t := ApplyBatches(env, now, access.outcomes, old(access.position), plan, B.Pack(plan.pending, env.budget));
        access.position == t.at && r == if t.Got? then Some(t.plan) else None
      ensures access.client == None
    {
      var batches := B.BuildTranslationBatches(plan.pending, env.budget);
      ghost var start := access.position;
      var current := plan;
      for i := 0 to |batches|
        invariant ApplyBatches(env, now, access.outcomes, access.position, current, batches[i..])
               == ApplyBatches(env, now, access.outcomes, start, plan, batches)
      {
        assert batches[i..][1..] == batches[i + 1..];
        var translated := T.TranslateBatch(access, batches[i]);
        if translated.Fail? {
          access.ResetClient();
          return None;
        }
        current := ApplyTranslations(env, now, current, batches[i], translated.translated);
      }
      access.ResetClient();
      r := Some(current);
    }

    static method FallBackToSource(force: bool, stores: Stores, plan: Plan) returns (r: Plan)
      ensures r == FallBack(force, stores, plan, plan.pending)
    {
      r := plan;
      for i := 0 to |plan.pending|
        invariant FallBack(force, stores, r, plan.pending[i..]) == FallBack(force, stores, plan, plan.pending)
      {
        var item := plan.pending[i];
        assert plan.pending[i..][1..] == plan.pending[i + 1..];
        if Get(r.next, item.key).Some? {
          continue;
        }
        var existing := Get(stores.existing, item.key);
        if existing.Some? && !force {
          r := r.(next := Put(r.next, item.key, existing.value));
          if item.key in stores.previous {
            r := r.(fallback := Put(r.fallback, item.key, ()));
          }
          continue;
        }
        r := r.(next := Put(r.next, item.key, item.text), fallback := Put(r.fallback, item.key, ()));
      }
    }

    /** Deciding, translating and falling back; `None` when a batch throws. */
    static method MakePlan(env: Setting, options: Options, files: Files, source: Entries<string>, access: T.ClientAccess)
      returns (r: Option<Plan>)
      modifies access
      ensures var t := FinalPlan(env, options, files, source, access.outcomes, old(access.position));
        access.position == t.at && r == if t.Got? then Some(t.plan) else None
    {
      var stores := StoresOf(files);
      var plan := DecideKeys(env, options.allowTranslate, stores, source);
      if options.allowTranslate && |plan.pending| > 0 {
        PendingKept(env, options.now, access.outcomes, access.position, plan, B.Pack(plan.pending, env.budget));
        r := TranslatePending(env, options.now, plan, access);
        if r == None {
          return;
        }
        plan := r.value;
      }
      plan := FallBackToSource(options.force, stores, plan);
      r := Some(plan);
    }

    method SyncLocale(env: Setting, options: Options, source: Forest, sourceHash: string, access: T.ClientAccess)
      returns (outcome: Outcome)
      modifies this, access
      ensures var r := Sync(env, options, source, sourceHash, old(files), access.outcomes, old(access.position));
        outcome == r.outcome && files == r.files && access.position == r.at
    {
      var sourceFlat := FlattenTranslations(source, "", []);
      var made := MakePlan(env, options, files, sourceFlat, access);
      if made == None {
        return Threw;
      }
      if !Parity(env, sourceFlat, made.value.next) {
        return Threw;
      }
      outcome := Finish(env, options, sourceFlat, sourceHash, made.value);
    }

    /** Comparing the files with the expected ones, and writing them where asked to. */
    method Finish(env: Setting, options: Options, source: Entries<string>, sourceHash: string, plan: Plan)
      returns (outcome: Outcome)
      modifies this
      ensures var expected := Expected(env, options, old(files), source, sourceHash, plan);
        var wrote := expected != old(files) && !options.checkOnly && options.write;
        outcome == Synced(expected != old(files), wrote, |expected.meta.value.fallbackKeys|)
        && files == if wrote then expected else old(files)
    {
      var root, layout := O.BuildNextMap(NextFlat(source, plan.next));
      var nextMap := O.Render(root.cells, layout, O.Tables(layout));
      var expected := Expected(env, options, files, source, sourceHash, plan);
      assert expected.table == Some(nextMap);
      var changed := expected != files;
      var fallbackCount := |expected.meta.value.fallbackKeys|;
      if !changed || (files.meta.Some? && files.meta.value.sourceHash == sourceHash
                      && !options.force && !options.checkOnly && !options.write) {
        return Synced(changed, false, fallbackCount);
      }
      if !options.checkOnly && options.write {
        files := expected;
      }
      outcome := Synced(changed, !options.checkOnly && options.write && changed, fallbackCount);
    }
  }

  lemma {:induction false} ApplyKeepsPending(env: Setting, now: string, plan: Plan, batch: B.Batch, translated: map<string, string>)
    ensures Apply(env, now, plan, batch, translated).pending == plan.pending
    decreases |batch|
  {
    if batch != [] {
      var item := batch[0];
      var plan' := if item.key in translated && translated[item.key] != "" then
          plan.(next := Put(plan.next, item.key, translated[item.key]),
                memory := Put(plan.memory, item.cacheKey, Entry(env, now, item, translated[item.key])))
        else plan;
      ApplyKeepsPending(env, now, plan', batch[1..], translated);
    }
  }

  lemma {:induction false} PendingKept(env: Setting, now: string, o: nat -> T.Outcome, at: nat, plan: Plan, batches: seq<B.Batch>)
    ensures var t := ApplyBatches(env, now, o, at, plan, batches); t.Got? ==> t.plan.pending == plan.pending
    decreases |batches|
  {
    if batches != [] {
      var t := T.Translate(o, at, batches[0]);
      if t.result.Done? {
        ApplyKeepsPending(env, now, plan, batches[0], t.result.translated);
        PendingKept(env, now, o, t.next, Apply(env, now, plan, batches[0], t.result.translated), batches[1..]);
      }
    }
  }
}
