/**
 The setup wizard's configuration: a deep merge of the provider settings into the existing file, then an
 overlay of the top-level `meta`, `mcp` and `channels` entries.
 */
module ConfigMerge {
  import opened Text

  /** Null and fractional numbers are other scalars: the wizard writes neither, but an existing file may hold them. */
  datatype Json = Str(text: string) | Num(value: int) | Flag(on: bool) | OtherScalar(text: string) | List(items: seq<Json>) | Dict(entries: Config)

  type Config = map<string, Json>

  /** `merge_configs`: dictionaries are merged, anything else is replaced. */
  function Merge(existing: Config, added: Config): Config
    decreases Dict(added)
  {
    map k | k in existing.Keys + added.Keys ::
      if k !in added then existing[k]
      else if added[k].Dict? && k in existing && existing[k].Dict? then
        Dict(Merge(existing[k].entries, added[k].entries))
      else added[k]
  }

  method MergeConfigs(existing: Config, added: Config) returns (result: Config)
    ensures result == Merge(existing, added)
    decreases Dict(added)
  {
    result := existing;
    var keys := added.Keys;
    while keys != {}
      invariant keys <= added.Keys
      invariant result.Keys == existing.Keys + (added.Keys - keys)
      invariant forall k :: k in keys ==> (k in result <==> k in existing)
      invariant forall k :: k in keys && k in existing ==> result[k] == existing[k]
      invariant forall k :: k in result && k !in keys ==> result[k] == Merge(existing, added)[k]
      decreases keys
    {
      var key :| key in keys;
      var value := added[key];
      if value.Dict? && key in result && result[key].Dict? {
        var merged := MergeConfigs(result[key].entries, value.entries);
        result := result[key := Dict(merged)];
      } else {
        result := result[key := value];
      }
      keys := keys - {key};
    }
  }

  // ---- merging ----

  /** Merging the same settings again changes nothing. */
  lemma {:induction false} MergeIdempotent(a: Config, b: Config)
    ensures Merge(Merge(a, b), b) == Merge(a, b)
    decreases Dict(b)
  {
    var m := Merge(a, b);
    forall k | k in b && b[k].Dict? ensures Merge(m, b)[k] == m[k] {
      if k in a && a[k].Dict? {
        MergeIdempotent(a[k].entries, b[k].entries);
      } else {
        MergeSelf(b[k].entries);
      }
    }
  }

  lemma {:induction false} MergeSelf(a: Config)
    ensures Merge(a, a) == a
    decreases Dict(a)
  {
    forall k | k in a && a[k].Dict? ensures Merge(a, a)[k] == a[k] {
      MergeSelf(a[k].entries);
    }
  }

  type Path = p: seq<string> | |p| > 0 witness [""]

  /** What stands at a path, whether a dictionary or not. */
  function At(c: Config, p: Path): Option<Json>
    decreases |p|
  {
    if p[0] !in c then None
    else if |p| == 1 then Some(c[p[0]])
    else if c[p[0]].Dict? then At(c[p[0]].entries, p[1..])
    else None
  }

  function LeafAt(c: Config, p: Path): Option<Json> {
    if At(c, p).Some? && !At(c, p).value.Dict? then At(c, p) else None
  }

  /** The settings say something about the path: a value there, or a plain value on the way to it. */
  predicate Determines(c: Config, p: Path)
    decreases |p|
  {
    p[0] in c && (|p| == 1 || !c[p[0]].Dict? || Determines(c[p[0]].entries, p[1..]))
  }

  /** Plain values of a merge: from the new settings wherever those determine the path, else the old ones. */
  lemma {:induction false} MergeTakes(a: Config, b: Config, p: Path)
    ensures LeafAt(Merge(a, b), p) == if Determines(b, p) then LeafAt(b, p) else LeafAt(a, p)
    decreases |p|
  {
    var k := p[0];
    if |p| > 1 && k in b && b[k].Dict? {
      if k in a && a[k].Dict? {
        MergeTakes(a[k].entries, b[k].entries, p[1..]);
      } else if !Determines(b, p) {
        NothingBelow(b[k].entries, p[1..]);
      }
    }
  }

  lemma {:induction false} NothingBelow(c: Config, p: Path)
    requires !Determines(c, p)
    ensures LeafAt(c, p) == None
    decreases |p|
  {
    if |p| > 1 && p[0] in c && c[p[0]].Dict? {
      NothingBelow(c[p[0]].entries, p[1..]);
    }
  }

  // ---- associativity ----

  /** Everything a holds is overwritten by c: merging c into a gives c itself. */
  ghost predicate Absorbed(a: Config, c: Config)
    decreases Dict(a)
  {
    forall k :: k in a ==> k in c && (a[k].Dict? && c[k].Dict? ==> Absorbed(a[k].entries, c[k].entries))
  }

  lemma {:induction false} AbsorbedExactly(a: Config, c: Config)
    ensures Merge(a, c) == c <==> Absorbed(a, c)
    decreases Dict(a)
  {
    forall k | k in a && k in c && a[k].Dict? && c[k].Dict?
      ensures Merge(a, c)[k] == c[k] <==> Absorbed(a[k].entries, c[k].entries)
    {
      AbsorbedExactly(a[k].entries, c[k].entries);
    }
    if Merge(a, c) == c {
      forall k | k in a ensures k in c && (a[k].Dict? && c[k].Dict? ==> Absorbed(a[k].entries, c[k].entries)) {
        assert k in Merge(a, c);
      }
    }
    if Absorbed(a, c) {
      assert Merge(a, c).Keys == c.Keys;
    }
  }

  /** At key k a dictionary of a meets a plain value of b and a dictionary of c that does not absorb it, or deeper. */
  ghost predicate ClashAt(a: Config, b: Config, c: Config, k: string)
    decreases Dict(a), 0
  {
    k in a && k in b && k in c && a[k].Dict? && c[k].Dict? &&
    (if b[k].Dict? then Clash(a[k].entries, b[k].entries, c[k].entries) else !Absorbed(a[k].entries, c[k].entries))
  }

  ghost predicate Clash(a: Config, b: Config, c: Config)
    decreases Dict(a), 1
  {
    exists k :: k in a && ClashAt(a, b, c, k)
  }

  ghost predicate Associative(a: Config, b: Config, c: Config) {
    Merge(Merge(a, b), c) == Merge(a, Merge(b, c))
  }

  lemma MergeAtKey(a: Config, b: Config, c: Config, k: string)
    requires k in a || k in b || k in c
    requires k in a && k in b && k in c && a[k].Dict? && b[k].Dict? && c[k].Dict? ==>
      (Associative(a[k].entries, b[k].entries, c[k].entries) <==> !Clash(a[k].entries, b[k].entries, c[k].entries))
    ensures Merge(Merge(a, b), c)[k] == Merge(a, Merge(b, c))[k] <==> !ClashAt(a, b, c, k)
  {
    if k in a && k in c && a[k].Dict? && c[k].Dict? {
      AbsorbedExactly(a[k].entries, c[k].entries);
    }
  }

  /** Merging three configurations is associative exactly when no such clash occurs. */
  lemma {:induction false} MergeAssociativeExactly(a: Config, b: Config, c: Config)
    ensures Associative(a, b, c) <==> !Clash(a, b, c)
    decreases Dict(a)
  {
    var left, right := Merge(Merge(a, b), c), Merge(a, Merge(b, c));
    assert left.Keys == right.Keys;
    forall k | k in left ensures left[k] == right[k] <==> !ClashAt(a, b, c, k) {
      if k in a && k in b && k in c && a[k].Dict? && b[k].Dict? && c[k].Dict? {
        MergeAssociativeExactly(a[k].entries, b[k].entries, c[k].entries);
      }
      MergeAtKey(a, b, c, k);
    }
    assert left == right <==> forall k :: k in left ==> left[k] == right[k];
  }

  // ---- the overlay ----

  datatype Mcp = Mcp(url: string, token: string, refreshToken: Option<string>, telegram: Option<Config>)

  const OVERLAY_KEYS := {"meta", "mcp", "channels"}

  function ServerConfig(mcp: Mcp): Config {
    var server := map["url" := Str(mcp.url), "headers" := Dict(map["Authorization" := Str("Bearer " + mcp.token)])];
    if mcp.refreshToken.Some? && mcp.refreshToken.value != "" then server["refreshToken" := Str(mcp.refreshToken.value)]
    else server
  }

  /** `create_mcp_config`: top-level entries are replaced, not merged; no Telegram entry without settings. */
  function Overlay(existing: Config, mcp: Mcp): Config {
    var config := existing["meta" := Dict(map["lastTouchedVersion" := Str("2026.8.1")])]
                          ["mcp" := Dict(map["servers" := Dict(map["kukios-mcp" := Dict(ServerConfig(mcp))])])];
    if mcp.telegram.Some? && |mcp.telegram.value| > 0 then
      config["channels" := Dict(map["telegram" := Dict(mcp.telegram.value)])]
    else config
  }

  /** Setting a top-level entry that b does not have commutes with merging b. */
  lemma UpdateCommutes(a: Config, b: Config, k: string, v: Json)
    requires k !in b
    ensures Merge(a[k := v], b) == Merge(a, b)[k := v]
  {
  }

  lemma OverlayCommutes(a: Config, b: Config, mcp: Mcp)
    requires b.Keys !! OVERLAY_KEYS
    ensures Merge(Overlay(a, mcp), b) == Overlay(Merge(a, b), mcp)
  {
    assert "meta" in OVERLAY_KEYS && "mcp" in OVERLAY_KEYS && "channels" in OVERLAY_KEYS;
    var meta := Dict(map["lastTouchedVersion" := Str("2026.8.1")]);
    var servers := Dict(map["servers" := Dict(map["kukios-mcp" := Dict(ServerConfig(mcp))])]);
    UpdateCommutes(a, b, "meta", meta);
    UpdateCommutes(a["meta" := meta], b, "mcp", servers);
    if mcp.telegram.Some? && |mcp.telegram.value| > 0 {
      UpdateCommutes(a["meta" := meta]["mcp" := servers], b, "channels", Dict(map["telegram" := Dict(mcp.telegram.value)]));
    }
  }

  lemma OverlayTwice(a: Config, mcp: Mcp)
    ensures Overlay(Overlay(a, mcp), mcp) == Overlay(a, mcp)
  {
  }

  // ---- provider settings ----

  datatype Provider = Provider(api: string, baseUrl: Option<string>, models: seq<(string, string)>)

  const DICT_EMPTY := Dict(map[])

  function LastPart(s: string): string {
    var parts := Split(s, '/');
    parts[|parts| - 1]
  }

  predicate TakesImages(name: string) {
    Contains(LowerAll(name), "image") || Contains(LowerAll(name), "vision")
  }

  function ModelConfig(mid: string, name: string): Json {
    Dict(map[
      "id" := Str(LastPart(mid)),
      "name" := Str(name),
      "reasoning" := Flag(false),
      "input" := List(if TakesImages(name) then [Str("text"), Str("image")] else [Str("text")]),
      "cost" := Dict(map["input" := Num(0), "output" := Num(0), "cacheRead" := Num(0), "cacheWrite" := Num(0)]),
      "contextWindow" := Num(128000),
      "maxTokens" := Num(8192)])
  }

  /** The loop over the models: one entry each, and a fallback for each but the primary. */
  function ModelConfigs(models: seq<(string, string)>): seq<Json> {
    seq(|models|, i requires 0 <= i < |models| => ModelConfig(models[i].0, models[i].1))
  }

  function Fallbacks(models: seq<(string, string)>, primary: string): seq<Json> {
    if models == [] then []
    else
      var last := models[|models| - 1].0;
      Fallbacks(models[..|models| - 1], primary) + (if last == primary then [] else [Str(last)])
  }

  function ModelIds(models: seq<(string, string)>, primary: string): set<string> {
    {primary} + set i | 0 <= i < |models| :: models[i].0
  }

  function ModelKeys(models: seq<(string, string)>, primary: string): Config {
    map k | k in ModelIds(models, primary) :: DICT_EMPTY
  }

  function ProviderConfig(providerId: string, modelId: string, provider: Provider, apiKey: string): Config {
    ProviderConfigOf(providerId, modelId, provider, apiKey,
      ModelConfigs(provider.models), Fallbacks(provider.models, modelId), ModelKeys(provider.models, modelId))
  }

  function ProviderConfigOf(providerId: string, modelId: string, provider: Provider, apiKey: string,
                            models: seq<Json>, fallbacks: seq<Json>, keys: Config): Config {
    var base := map["apiKey" := Str(apiKey), "api" := Str(provider.api), "models" := List(models)];
    var entry := if provider.baseUrl.Some? && provider.baseUrl.value != "" then base["baseUrl" := Str(provider.baseUrl.value)] else base;
    map[
      "agents" := Dict(map["defaults" := Dict(map[
        "model" := Dict(map["primary" := Str(modelId), "fallbacks" := List(fallbacks)]),
        "models" := Dict(keys)])]),
      "models" := Dict(map["mode" := Str("merge"), "providers" := Dict(map[providerId := Dict(entry)])]),
      "auth" := Dict(map["profiles" := Dict(map[
        providerId + ":default" := Dict(map["provider" := Str(providerId), "mode" := Str("api_key")])])])]
  }

  method CreateProviderConfig(providerId: string, modelId: string, provider: Provider, apiKey: string) returns (config: Config)
    ensures config == ProviderConfig(providerId, modelId, provider, apiKey)
  {
    var models: seq<Json>, fallbacks: seq<Json>, keys: Config := [], [], map[modelId := DICT_EMPTY];
    for i := 0 to |provider.models|
      invariant models == ModelConfigs(provider.models[..i])
      invariant fallbacks == Fallbacks(provider.models[..i], modelId)
      invariant keys == ModelKeys(provider.models[..i], modelId)
    {
      var (mid, name) := provider.models[i];
      assert provider.models[..i + 1] == provider.models[..i] + [(mid, name)];
      models := models + [ModelConfig(mid, name)];
      KeysGrow(provider.models[..i], (mid, name), modelId);
      if mid != modelId {
        fallbacks := fallbacks + [Str(mid)];
        keys := keys[mid := DICT_EMPTY];
      }
    }
    assert provider.models[..|provider.models|] == provider.models;
    config := ProviderConfigOf(providerId, modelId, provider, apiKey, models, fallbacks, keys);
  }

  lemma KeysGrow(models: seq<(string, string)>, m: (string, string), primary: string)
    ensures ModelKeys(models + [m], primary) == ModelKeys(models, primary)[m.0 := DICT_EMPTY]
    ensures Fallbacks(models + [m], primary) == Fallbacks(models, primary) + (if m.0 == primary then [] else [Str(m.0)])
    ensures m.0 == primary ==> ModelKeys(models + [m], primary) == ModelKeys(models, primary)
  {
    var more := models + [m];
    assert more[..|models|] == models && more[|models|] == m;
    forall k | k in ModelKeys(models, primary) ensures k in ModelKeys(more, primary) {
      if k != primary {
        var i :| 0 <= i < |models| && models[i].0 == k;
        assert more[i].0 == k;
      }
    }
    assert more[|models|].0 in ModelKeys(more, primary);
  }

  /** The fallbacks are the provider's models without the primary one. */
  lemma {:induction false} FallbacksAreTheOthers(models: seq<(string, string)>, primary: string, mid: string)
    ensures Str(mid) in Fallbacks(models, primary) <==> mid != primary && exists i :: 0 <= i < |models| && models[i].0 == mid
    decreases |models|
  {
    if models != [] {
      var n := |models| - 1;
      FallbacksAreTheOthers(models[..n], primary, mid);
      assert Fallbacks(models, primary)
        == Fallbacks(models[..n], primary) + (if models[n].0 == primary then [] else [Str(models[n].0)]);
      hide Fallbacks;
      if exists i :: 0 <= i < n && models[..n][i].0 == mid {
        var i :| 0 <= i < n && models[..n][i].0 == mid;
        assert models[i].0 == mid;
      }
      if exists i :: 0 <= i < |models| && models[i].0 == mid {
        var i :| 0 <= i < |models| && models[i].0 == mid;
        if i < n { assert models[..n][i].0 == mid; }
      }
    }
  }

  // ---- the wizard ----

  datatype Answers = Answers(provider: Option<(string, string, Provider, string)>, mcp: Mcp)

  /** What a run of the wizard writes over the existing configuration. */
  function Setup(existing: Config, answers: Answers): Config {
    var merged :=
      match answers.provider
      case None => existing
      case Some((id, model, provider, key)) => Merge(existing, ProviderConfig(id, model, provider, key));
    Overlay(merged, answers.mcp)
  }

  /** Running the wizard again with the same answers writes the same configuration. */
  lemma RerunIsNoOp(existing: Config, answers: Answers)
    ensures Setup(Setup(existing, answers), answers) == Setup(existing, answers)
  {
    match answers.provider
    case None =>
      OverlayTwice(existing, answers.mcp);
    case Some((id, model, provider, key)) =>
      var b := ProviderConfig(id, model, provider, key);
      assert b.Keys == {"agents", "models", "auth"};
      var m := Merge(existing, b);
      OverlayCommutes(m, b, answers.mcp);
      OverlayTwice(m, answers.mcp);
      MergeIdempotent(existing, b);
  }

  /** A setting the answers do not touch keeps its old value through a run. */
  lemma OtherSettingsStay(existing: Config, answers: Answers, p: Path)
    requires p[0] !in OVERLAY_KEYS
    requires answers.provider.Some? ==>
      !Determines(ProviderConfig(answers.provider.value.0, answers.provider.value.1, answers.provider.value.2, answers.provider.value.3), p)
    ensures LeafAt(Setup(existing, answers), p) == LeafAt(existing, p)
  {
    if answers.provider.Some? {
      var (id, model, provider, key) := answers.provider.value;
      MergeTakes(existing, ProviderConfig(id, model, provider, key), p);
    }
  }

  // ---- what stands where ----

  function Sub(c: Config, k: string): Config {
    if k in c && c[k].Dict? then c[k].entries else map[]
  }

  /** A provider's settings for agents: the model as primary, its fallbacks, and one empty entry a model. */
  lemma AgentsSay(id: string, model: string, p: Provider, key: string)
    ensures var c := ProviderConfig(id, model, p, key);
      var defaults := Sub(Sub(c, "agents"), "defaults");
      && c.Keys == {"agents", "models", "auth"} && Sub(c, "agents").Keys == {"defaults"}
      && defaults.Keys == {"model", "models"}
      && Sub(defaults, "model") == map["primary" := Str(model), "fallbacks" := List(Fallbacks(p.models, model))]
      && (forall k :: k in Sub(defaults, "models") <==> k == model || exists i :: 0 <= i < |p.models| && p.models[i].0 == k)
      && (forall k :: k in Sub(defaults, "models") ==> Sub(defaults, "models")[k] == Dict(map[]))
  {
    hide ModelConfigs, Fallbacks;
    var c := ProviderConfig(id, model, p, key);
    var defaults := map["model" := Dict(map["primary" := Str(model), "fallbacks" := List(Fallbacks(p.models, model))]),
                        "models" := Dict(ModelKeys(p.models, model))];
    assert Sub(c, "agents") == map["defaults" := Dict(defaults)];
    assert Sub(defaults, "models") == ModelKeys(p.models, model);
  }

  /** A provider's entry: the key given, its interface, its models, and an address only where it has one. */
  lemma EntrySays(id: string, model: string, p: Provider, key: string)
    ensures var c := ProviderConfig(id, model, p, key);
      var providers := Sub(Sub(c, "models"), "providers");
      var entry := Sub(providers, id);
      && Sub(c, "models").Keys == {"mode", "providers"} && Sub(c, "models")["mode"] == Str("merge") && providers.Keys == {id}
      && entry.Keys == {"apiKey", "api", "models"} + (if p.baseUrl.Some? && p.baseUrl.value != "" then {"baseUrl"} else {})
      && entry["apiKey"] == Str(key) && entry["api"] == Str(p.api) && entry["models"] == List(ModelConfigs(p.models))
      && ("baseUrl" in entry ==> entry["baseUrl"] == Str(p.baseUrl.value))
  {
    hide ModelConfigs, Fallbacks, ModelKeys;
    var c := ProviderConfig(id, model, p, key);
    var base := map["apiKey" := Str(key), "api" := Str(p.api), "models" := List(ModelConfigs(p.models))];
    var entry := if p.baseUrl.Some? && p.baseUrl.value != "" then base["baseUrl" := Str(p.baseUrl.value)] else base;
    assert Sub(c, "models") == map["mode" := Str("merge"), "providers" := Dict(map[id := Dict(entry)])];
  }

  lemma AuthSays(id: string, model: string, p: Provider, key: string)
    ensures var auth := Sub(ProviderConfig(id, model, p, key), "auth");
      && auth.Keys == {"profiles"}
      && Sub(auth, "profiles") == map[id + ":default" := Dict(map["provider" := Str(id), "mode" := Str("api_key")])]
  {
    hide ModelConfigs, Fallbacks, ModelKeys;
  }

  lemma {:induction false} LastPartSays(s: string)
    ensures '/' !in LastPart(s) && |LastPart(s)| <= |s| && s[|s| - |LastPart(s)|..] == LastPart(s)
    ensures |LastPart(s)| < |s| ==> s[|s| - |LastPart(s)| - 1] == '/'
  {
    var parts := Split(s, '/');
    var n := |parts| - 1;
    SplitFree(s, '/');
    JoinSplit(s, '/');
    if n > 0 {
      assert parts == parts[..n] + [parts[n]];
      JoinAppend(parts[..n], [parts[n]], '/');
      assert Join([parts[n]], '/') == parts[n];
    }
  }

  /** One entry a model, in order: its id without the vendor, its name, and images only for names that say so. */
  lemma ModelsSay(models: seq<(string, string)>, i: nat)
    requires i < |models|
    ensures |ModelConfigs(models)| == |models| && ModelConfigs(models)[i].Dict?
    ensures var m := ModelConfigs(models)[i].entries;
      && m.Keys == {"id", "name", "reasoning", "input", "cost", "contextWindow", "maxTokens"}
      && m["id"] == Str(LastPart(models[i].0)) && m["name"] == Str(models[i].1) && m["reasoning"] == Flag(false)
      && m["contextWindow"] == Num(128000) && m["maxTokens"] == Num(8192)
      && m["cost"] == Dict(map["input" := Num(0), "output" := Num(0), "cacheRead" := Num(0), "cacheWrite" := Num(0)])
      && m["input"] == List(if Contains(LowerAll(models[i].1), "image") || Contains(LowerAll(models[i].1), "vision")
                            then [Str("text"), Str("image")] else [Str("text")])
  {
  }

  /** The overlay sets `meta` and `mcp`, `channels` only for Telegram settings, and leaves everything else. */
  lemma OverlaySays(a: Config, mcp: Mcp)
    ensures var c := Overlay(a, mcp);
      && (forall k :: k != "meta" && k != "mcp" && k != "channels" ==> (k in c <==> k in a) && (k in a ==> c[k] == a[k]))
      && Sub(c, "meta") == map["lastTouchedVersion" := Str("2026.8.1")]
      && Sub(c, "mcp") == map["servers" := Dict(map["kukios-mcp" := Dict(ServerConfig(mcp))])]
      && if mcp.telegram.Some? && mcp.telegram.value != map[] then Sub(c, "channels") == map["telegram" := Dict(mcp.telegram.value)]
         else ("channels" in c <==> "channels" in a) && ("channels" in a ==> c["channels"] == a["channels"])
  {
    hide ServerConfig;
    assert mcp.telegram.Some? ==> (|mcp.telegram.value| > 0 <==> mcp.telegram.value != map[]);
  }

  /** The server's address and token, and a refresh token only where one was given. */
  lemma ServerSays(mcp: Mcp)
    ensures var server := ServerConfig(mcp);
      && server.Keys == {"url", "headers"} + (if mcp.refreshToken.Some? && mcp.refreshToken.value != "" then {"refreshToken"} else {})
      && server["url"] == Str(mcp.url) && server["headers"] == Dict(map["Authorization" := Str("Bearer " + mcp.token)])
      && ("refreshToken" in server ==> server["refreshToken"] == Str(mcp.refreshToken.value))
  {
  }
}
