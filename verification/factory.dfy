/** The provider factory (src/ai_support_agent/services/ai_provider/factory.py): a cache of
    provider instances keyed "provider:model", the key of the last provider handed out,
    and the map from provider type names to provider classes. Creating a provider is
    modelled as building the record of its configuration; what the provider classes do
    with it is not part of this model. */
module Providers {
  import opened Wrappers
  import opened Text
  import opened Dicts

  /** The provider classes the factory can instantiate. */
  datatype ProviderKind = OpenAIProvider | AnthropicProvider | AzureProvider

  /** The type name each class is registered under. */
  function KindName(k: ProviderKind): string
  {
    match k
    case OpenAIProvider => "openai"
    case AnthropicProvider => "anthropic"
    case AzureProvider => "azure"
  }

  /** `_provider_map` as `__init__` sets it. */
  const ProviderMap: Dict<ProviderKind> := [("openai", OpenAIProvider), ("anthropic", AnthropicProvider), ("azure", AzureProvider)]

  /** `ProviderConfig`. Floating-point fields are reals. */
  datatype ProviderConfig = ProviderConfig(
    provider: string,
    model: string,
    temperature: real,
    maxTokens: Option<int>,
    topP: Option<real>,
    presencePenalty: Option<real>,
    frequencyPenalty: Option<real>)

  predicate Within(x: real, lo: real, hi: real)
  {
    lo <= x <= hi
  }

  /** The field constraints of `ProviderConfig`: a known provider type, temperature and
      `top_p` in [0, 1], a positive token limit and penalties in [-2, 2]. */
  predicate ValidConfig(c: ProviderConfig)
  {
    (c.provider == "openai" || c.provider == "anthropic" || c.provider == "azure")
    && Within(c.temperature, 0.0, 1.0)
    && (c.maxTokens.Some? ==> c.maxTokens.value > 0)
    && (c.topP.Some? ==> Within(c.topP.value, 0.0, 1.0))
    && (c.presencePenalty.Some? ==> Within(c.presencePenalty.value, -2.0, 2.0))
    && (c.frequencyPenalty.Some? ==> Within(c.frequencyPenalty.value, -2.0, 2.0))
  }

  /** The configuration handed to a new provider. */
  datatype LLMConfig = LLMConfig(
    model: string,
    temperature: real,
    maxTokens: Option<int>,
    topP: Option<real>,
    presencePenalty: Option<real>,
    frequencyPenalty: Option<real>)

  function LLMConfigOf(c: ProviderConfig): LLMConfig
  {
    LLMConfig(c.model, c.temperature, c.maxTokens, c.topP, c.presencePenalty, c.frequencyPenalty)
  }

  /** A provider instance: its class and the configuration it was built with. */
  datatype Provider = Provider(kind: ProviderKind, config: LLMConfig)

  /** `f"{config.provider}:{config.model}"` */
  function CacheKey(c: ProviderConfig): string
  {
    c.provider + ":" + c.model
  }

  /** The key a provider is cached under when the factory built it. */
  function KeyOf(p: Provider): string
  {
    KindName(p.kind) + ":" + p.config.model
  }

  /** The factory's mutable state: `_provider_cache` and `_last_provider`. */
  datatype Cache = Cache(entries: Dict<Provider>, last: Option<string>)

  /** What `get_provider` returns, and the state after it. */
  datatype Outcome = Outcome(result: Result<Provider, string>, state: Cache)

  /** `get_provider`: a cached provider is returned as it is; otherwise an unknown type
      fails and changes nothing, and a known one is built, cached and remembered. */
  function Request(providerMap: Dict<ProviderKind>, s: Cache, c: ProviderConfig): (o: Outcome)
    ensures o.result.Err? <==> Get(s.entries, CacheKey(c)).None? && Get(providerMap, c.provider).None?
    ensures o.result.Err? ==> o.state == s
    ensures Get(s.entries, CacheKey(c)).Some? ==> o == Outcome(Ok(Get(s.entries, CacheKey(c)).value), s.(last := Some(CacheKey(c))))
    ensures o.result.Ok? ==> Get(o.state.entries, CacheKey(c)) == Some(o.result.value) && o.state.last == Some(CacheKey(c))
    ensures o.result.Ok? && Get(s.entries, CacheKey(c)).None? ==>
              Keys(o.state.entries) == Keys(s.entries) + [CacheKey(c)]
              && o.result.value == Provider(Get(providerMap, c.provider).value, LLMConfigOf(c))
    ensures forall k {:trigger Get(o.state.entries, k)} :: k != CacheKey(c) ==> Get(o.state.entries, k) == Get(s.entries, k)
  {
    var key := CacheKey(c);
    match Get(s.entries, key)
    case Some(p) => Outcome(Ok(p), s.(last := Some(key)))
    case None =>
      match Get(providerMap, c.provider)
      case None => Outcome(Err("Unsupported provider type: " + c.provider), s)
      case Some(kind) =>
        var p := Provider(kind, LLMConfigOf(c));
        Outcome(Ok(p), Cache(Put(s.entries, key, p), Some(key)))
  }

  /** What the factory's state always satisfies: each key is cached once, under the key
      of the provider stored there, and the last key is a cached one. */
  predicate Coherent(s: Cache)
  {
    UniqueKeys(s.entries)
    && (forall i :: 0 <= i < |s.entries| ==> s.entries[i].0 == KeyOf(s.entries[i].1))
    && (s.last.Some? ==> s.last.value in Keys(s.entries))
  }

  /** The registered names are the three provider types, in registration order, and each
      is registered with the class of that name. */
  lemma ProviderMapNames()
    ensures Keys(ProviderMap) == ["openai", "anthropic", "azure"]
    ensures forall name :: Get(ProviderMap, name).Some? ==> KindName(Get(ProviderMap, name).value) == name
  {
    forall name | Get(ProviderMap, name).Some?
      ensures KindName(Get(ProviderMap, name).value) == name
    {
      assert (name, Get(ProviderMap, name).value) in ProviderMap;
    }
  }

  /** A configuration that passes its own validation names a registered provider type, so
      it is never refused as unsupported. */
  lemma ValidConfigSupported(c: ProviderConfig)
    requires ValidConfig(c)
    ensures Get(ProviderMap, c.provider).Some?
    ensures KindName(Get(ProviderMap, c.provider).value) == c.provider
  {
    ProviderMapNames();
  }

  /** Two configurations with the same provider type and model get the same instance:
      the one built for the first, with the first one's temperature and limits. */
  lemma SameKeySameInstance(providerMap: Dict<ProviderKind>, s: Cache, c1: ProviderConfig, c2: ProviderConfig)
    requires c1.provider == c2.provider && c1.model == c2.model
    requires Request(providerMap, s, c1).result.Ok?
    ensures Request(providerMap, Request(providerMap, s, c1).state, c2).result == Request(providerMap, s, c1).result
    ensures Request(providerMap, Request(providerMap, s, c1).state, c2).state == Request(providerMap, s, c1).state
  {
    assert CacheKey(c1) == CacheKey(c2);
  }

  /** Every request keeps the state coherent. */
  lemma RequestCoherent(s: Cache, c: ProviderConfig)
    requires Coherent(s)
    ensures Coherent(Request(ProviderMap, s, c).state)
  {
    var key := CacheKey(c);
    if Get(s.entries, key).None? && Get(ProviderMap, c.provider).Some? {
      var kind := Get(ProviderMap, c.provider).value;
      var p := Provider(kind, LLMConfigOf(c));
      ProviderMapNames();
      assert KeyOf(p) == key;
      PutEntries(s.entries, key, p);
      CoherentSnoc(s.entries, key, p);
    }
  }

  /** Appending a new key with the provider built for it keeps the state coherent. */
  lemma CoherentSnoc(entries: Dict<Provider>, key: string, p: Provider)
    requires UniqueKeys(entries) && forall i :: 0 <= i < |entries| ==> entries[i].0 == KeyOf(entries[i].1)
    requires key !in Keys(entries) && key == KeyOf(p)
    ensures Coherent(Cache(entries + [(key, p)], Some(key)))
  {
    UniqueSnoc(entries, key, p);
    KeysSnoc(entries, key, p);
    KeyedSnoc(entries, key, p);
  }

  lemma KeyedSnoc(entries: Dict<Provider>, key: string, p: Provider)
    requires forall i :: 0 <= i < |entries| ==> entries[i].0 == KeyOf(entries[i].1)
    requires key == KeyOf(p)
    ensures forall i :: 0 <= i < |entries + [(key, p)]| ==> (entries + [(key, p)])[i].0 == KeyOf((entries + [(key, p)])[i].1)
  {
    var e := entries + [(key, p)];
    forall i | 0 <= i < |e|
      ensures e[i].0 == KeyOf(e[i].1)
    {
      if i < |entries| {
        assert e[i] == entries[i];
      }
    }
  }

  /** A new key appended keeps the keys unique. */
  lemma UniqueSnoc<V>(d: Dict<V>, k: string, v: V)
    requires UniqueKeys(d) && k !in Keys(d)
    ensures UniqueKeys(d + [(k, v)])
  {
    var e := d + [(k, v)];
    forall i, j | 0 <= i < j < |e|
      ensures e[i].0 != e[j].0
    {
      assert e[i] == d[i];
      if j == |d| {
        assert Keys(d)[i] == d[i].0;
      } else {
        assert e[j] == d[j];
      }
    }
  }

  lemma KeysSnoc<V>(d: Dict<V>, k: string, v: V)
    ensures k in Keys(d + [(k, v)])
  {
    assert Keys(d + [(k, v)])[|d|] == k;
  }

  /** Putting a new key appends its entry. */
  lemma PutEntries<V>(d: Dict<V>, k: string, v: V)
    requires k !in Keys(d)
    ensures Put(d, k, v) == d + [(k, v)]
    decreases |d|
  {
    if d != [] {
      assert Keys(d)[0] == d[0].0;
      assert Keys(d[1..]) == Keys(d)[1..];
      PutEntries(d[1..], k, v);
    }
  }

  /** Inside a key, the provider name ends at the first colon: a name without a colon and
      a model are read back from the key they form. */
  lemma CacheKeyInjective(c1: ProviderConfig, c2: ProviderConfig)
    requires ':' !in c1.provider && ':' !in c2.provider
    requires CacheKey(c1) == CacheKey(c2)
    ensures c1.provider == c2.provider && c1.model == c2.model
  {
    KeyParts(c1.provider, c1.model);
    KeyParts(c2.provider, c2.model);
  }

  lemma KeyParts(p: string, m: string)
    requires ':' !in p
    ensures SplitOnce(p + ":" + m, ':') == [p, m]
  {
    var k := p + ":" + m;
    assert k[|p|] == ':';
    assert k[..|p|] == p && k[|p| + 1..] == m;
    SplitOnceAt(k, ':', |p|);
  }

  /** The configuration `get_default_provider` builds from the settings. */
  function DefaultConfig(defaultModel: string, defaultTemperature: real): (c: ProviderConfig)
    ensures Within(defaultTemperature, 0.0, 1.0) ==> ValidConfig(c)
    ensures CacheKey(c) == "openai:" + defaultModel
  {
    ProviderConfig("openai", defaultModel, defaultTemperature, None, None, None, None)
  }

  /** `ProviderFactory`. */
  class ProviderFactory {
    var providerMap: Dict<ProviderKind>
    var providerCache: Dict<Provider>
    var lastProvider: Option<string>

    function State(): Cache
      reads this
    {
      Cache(providerCache, lastProvider)
    }

    /** The three provider types are registered and the cache is coherent. */
    predicate Valid()
      reads this
    {
      providerMap == ProviderMap && Coherent(State())
    }

    /** `__init__`: the three provider types and an empty cache. */
    constructor()
      ensures providerMap == ProviderMap && providerCache == [] && lastProvider == None
      ensures Valid() && SupportedProviders() == ["openai", "anthropic", "azure"]
    {
      providerMap := ProviderMap;
      providerCache := [];
      lastProvider := None;
      ProviderMapNames();
    }

    /** `get_provider` */
    method GetProvider(config: ProviderConfig) returns (r: Result<Provider, string>)
      modifies this
      ensures providerMap == old(providerMap)
      ensures Outcome(r, State()) == Request(providerMap, old(State()), config)
      ensures old(Valid()) ==> Valid()
    {
      if Valid() {
        RequestCoherent(State(), config);
      }
      var cacheKey := CacheKey(config);
      var cached := Get(providerCache, cacheKey);
      if cached.Some? {
        lastProvider := Some(cacheKey);
        return Ok(cached.value);
      }
      var providerClass := Get(providerMap, config.provider);
      if providerClass.None? {
        return Err("Unsupported provider type: " + config.provider);
      }
      var provider := Provider(providerClass.value, LLMConfigOf(config));
      providerCache := Put(providerCache, cacheKey, provider);
      lastProvider := Some(cacheKey);
      return Ok(provider);
    }

    /** `get_default_provider`, with the settings' default model and temperature as
        parameters: building the configuration fails when the temperature is out of
        range. */
    method GetDefaultProvider(defaultModel: string, defaultTemperature: real) returns (r: Result<Provider, string>)
      modifies this
      ensures providerMap == old(providerMap)
      ensures !Within(defaultTemperature, 0.0, 1.0) ==> r.Err? && State() == old(State())
      ensures Within(defaultTemperature, 0.0, 1.0) ==>
                Outcome(r, State()) == Request(providerMap, old(State()), DefaultConfig(defaultModel, defaultTemperature))
      ensures old(Valid()) ==> Valid()
    {
      if !Within(defaultTemperature, 0.0, 1.0) {
        return Err("temperature: Input should be between 0 and 1");
      }
      r := GetProvider(DefaultConfig(defaultModel, defaultTemperature));
    }

    /** `clear_cache` */
    method ClearCache()
      modifies this
      ensures providerMap == old(providerMap)
      ensures providerCache == [] && lastProvider == None
      ensures old(Valid()) ==> Valid()
    {
      providerCache := [];
      lastProvider := None;
    }

    /** `supported_providers` */
    function SupportedProviders(): seq<string>
      reads this
    {
      Keys(providerMap)
    }

    /** `last_provider` */
    function LastProvider(): Option<string>
      reads this
    {
      lastProvider
    }

    /** `cached_providers` */
    function CachedProviders(): seq<string>
      reads this
    {
      Keys(providerCache)
    }
  }
}
