/**
 * Properties of the configuration cache that relate several calls, or a
 * call and the lookups made after it.
 */
module CacheProperties {
  import opened Wrappers
  import opened ItemFold
  import opened Configurator

  /** `InitConfig` leaves no key visible to `HasKey`, not even a key of the default. */
  lemma InitHidesEveryKey(s: State, filePath: string, defaultConfig: Config, key: string)
    ensures !HasKey(InitConfig(s, filePath, defaultConfig).0, key)
  {
  }

  /** The outcome of `InitConfig` depends on the default alone. */
  lemma InitIgnoresPathAndHistory(s1: State, s2: State, path1: string, path2: string, defaultConfig: Config)
    ensures InitConfig(s1, path1, defaultConfig) == InitConfig(s2, path2, defaultConfig)
  {
  }

  /** After `InitConfig`, a failed fetch makes `GetConfig` return exactly the recorded default. */
  lemma InitThenFailedGetReturnsDefault(s: State, filePath: string, defaultConfig: Config, f: Fetch)
    requires !Loads(f)
    ensures GetConfig(InitConfig(s, filePath, defaultConfig).0, f).1 == defaultConfig
  {
  }

  /** After a successful parse, a key is cached iff some decoded item carries it. */
  lemma ParsedKeyIffSomeItem(s: State, doc: JsonData, key: string)
    ensures HasKey(ParseJson(s, Decoded(doc)).0, key)
        <==> exists i :: 0 <= i < |doc.data.items| && doc.data.items[i].key == key
  {
  }

  /** With duplicate keys, the cached value is that of the last item carrying the key. */
  lemma ParsedValueIsLastItems(s: State, doc: JsonData, i: nat)
    requires i < |doc.data.items| && IsLastWith(doc.data.items, i)
    ensures ParseJson(s, Decoded(doc)).0.config == Some(Fold(doc.data.items))
    ensures Fold(doc.data.items)[doc.data.items[i].key] == doc.data.items[i].value
  {
  }

  /** A successful parse drops every earlier key that the new item list lacks. */
  lemma ParseReplacesWholesale(s: State, doc: JsonData, key: string)
    requires HasKey(s, key)
    requires forall i :: 0 <= i < |doc.data.items| ==> doc.data.items[i].key != key
    ensures !HasKey(ParseJson(s, Decoded(doc)).0, key)
  {
  }

  /** A decode error keeps the cache, nil or not, and reports the parse error. */
  lemma DecodeFailureKeepsCache(s: State)
    ensures ParseJson(s, DecodeFailed).0.config == s.config
    ensures ParseJson(s, DecodeFailed).1 == Some(ParseError)
  {
  }

  /**
   * An empty item list still loads a non-nil empty map, so a later failed
   * fetch returns that empty map and not the default.
   */
  lemma EmptyLoadShadowsDefault(s: State, f: Fetch)
    requires !Loads(f)
    ensures GetConfig(GetConfig(s, Body(Decoded(JsonData(Data([]))))).0, f).1 == Some(map[])
  {
  }

  /** Once something has been loaded, neither the cache nor any returned `Config` is nil again. */
  lemma OnceLoadedNeverNil(s: State, f: Fetch)
    requires s.config.Some?
    ensures GetConfig(s, f).0.config.Some?
    ensures GetConfig(s, f).1.Some?
  {
  }

  /** `GetConfig` returns nil only when nothing was ever loaded and the default itself is nil. */
  lemma GetConfigNilOnlyFromNilDefault(s: State, f: Fetch)
    ensures GetConfig(s, f).1.None? <==> !Loads(f) && s.config.None? && s.defaultConfig.None?
  {
  }

  /**
   * `HasKey` after a `GetConfig` answers for the returned map whenever that
   * map is the cache, that is, unless the default was returned.
   */
  lemma HasKeyAgreesWithGetConfig(s: State, f: Fetch, key: string)
    requires Loads(f) || s.config.Some?
    ensures GetConfig(s, f).1.Some?
    ensures HasKey(GetConfig(s, f).0, key) <==> key in GetConfig(s, f).1.value
  {
  }

  /** When the default is returned, `HasKey` still ignores it: no key is visible. */
  lemma HasKeyIgnoresDefault(s: State, f: Fetch, key: string)
    requires !Loads(f) && s.config.None?
    ensures GetConfig(s, f).1 == s.defaultConfig
    ensures !HasKey(GetConfig(s, f).0, key)
  {
  }

  /** The state after calling `GetConfig` once per fetch, in order. */
  function RunGets(s: State, fs: seq<Fetch>): State
    decreases |fs|
  {
    if |fs| == 0 then s
    else RunGets(GetConfig(s, fs[0]).0, fs[1..])
  }

  /** The item list of the last fetch in `fs` that loaded, if any did. */
  function LastLoad(fs: seq<Fetch>): Option<seq<Item>>
    decreases |fs|
  {
    if |fs| == 0 then None
    else match LastLoad(fs[1..])
      case Some(items) => Some(items)
      case None => if Loads(fs[0]) then Some(LoadedItems(fs[0])) else None
  }

  /**
   * Over any run of `GetConfig` calls the default never changes, and the
   * cache is the map of the last successful load, or the starting cache if
   * no fetch succeeded.
   */
  lemma {:induction false} RunGetsCache(s: State, fs: seq<Fetch>)
    ensures RunGets(s, fs).defaultConfig == s.defaultConfig
    ensures LastLoad(fs).None? ==> RunGets(s, fs).config == s.config
    ensures LastLoad(fs).Some? ==> RunGets(s, fs).config == Some(Fold(LastLoad(fs).value))
    decreases |fs|
  {
    if |fs| > 0 {
      RunGetsCache(GetConfig(s, fs[0]).0, fs[1..]);
    }
  }
}
