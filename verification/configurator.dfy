/**
 * The configuration cache of the `configmodule` package: the two package
 * globals, and the operations that read and replace them around a remote
 * fetch. The globals become an immutable `State` threaded through pure
 * functions; the fetch becomes a `Fetch` value given as a parameter.
 */
module Configurator {
  import opened Wrappers
  import opened ItemFold

  /** A Go `Config`: either nil (`None`) or a string-to-string map. */
  type Config = Option<map<string, string>>

  /** The package globals `config` (the cache) and `defaultConfig`. */
  datatype State = State(config: Config, defaultConfig: Config)

  /** The error values a fetch can report to `GetConfig`. */
  datatype Error =
    | RequestError   // building the HTTP request failed
    | SendError      // sending it failed; the client timeout can also interrupt the body read
    | ReadError      // reading the response body failed
    | ParseError     // the body is not JSON of the envelope's shape

  /** What decoding a response body produced. */
  datatype Decode = DecodeFailed | Decoded(doc: JsonData)

  /**
   * How one round trip to the configuration endpoint went. The response's
   * status code is not inspected, so any body that arrives is decoded.
   */
  datatype Fetch =
    | RequestFailed
    | SendFailed
    | ReadFailed
    | Body(decode: Decode)

  /** The fetch produced an item list that replaces the cache. */
  predicate Loads(f: Fetch) {
    f.Body? && f.decode.Decoded?
  }

  /** The item list a loading fetch produced. */
  function LoadedItems(f: Fetch): seq<Item>
    requires Loads(f)
  {
    f.decode.doc.data.items
  }

  /**
   * `InitConfig`: records the default and forgets any cached map. The file
   * path is accepted and ignored, and the call always reports success.
   */
  function InitConfig(s: State, filePath: string, defaultConfig: Config): (r: (State, Option<Error>))
    ensures r.1 == None
    ensures r.0.config == None
    ensures r.0.defaultConfig == defaultConfig
  {
    (State(None, defaultConfig), None)
  }

  /**
   * `parseJSON`: on a decode error the state is left as it was; otherwise a
   * fresh map built from the item list replaces the cache wholesale.
   */
  function ParseJson(s: State, d: Decode): (r: (State, Option<Error>))
    ensures d.DecodeFailed? ==> r == (s, Some(ParseError))
    ensures d.Decoded? ==> r.1 == None && r.0.defaultConfig == s.defaultConfig
    ensures d.Decoded? ==> r.0.config.Some? && IsLastWriteMap(d.doc.data.items, r.0.config.value)
  {
    match d
    case DecodeFailed => (s, Some(ParseError))
    case Decoded(doc) =>
      FoldIsLastWriteMap(doc.data.items);
      (State(Some(Fold(doc.data.items)), s.defaultConfig), None)
  }

  /**
   * `readConfigFile`: each transport failure is reported with the state
   * untouched; a body that arrives is handed to `parseJSON`.
   */
  function ReadConfigFile(s: State, f: Fetch): (r: (State, Option<Error>))
    ensures r.1.None? <==> Loads(f)
    ensures !Loads(f) ==> r.0 == s
    ensures Loads(f) ==> r.0 == State(Some(Fold(LoadedItems(f))), s.defaultConfig)
  {
    match f
    case RequestFailed => (s, Some(RequestError))
    case SendFailed => (s, Some(SendError))
    case ReadFailed => (s, Some(ReadError))
    case Body(d) => ParseJson(s, d)
  }

  /**
   * `GetConfig`: fetch, then return the fresh map; when the fetch fails,
   * return the default if nothing was ever loaded and the stale cache
   * otherwise. Returns the new state and the returned `Config`.
   */
  function GetConfig(s: State, f: Fetch): (r: (State, Config))
    ensures Loads(f) ==> r.1 == Some(Fold(LoadedItems(f)))
    ensures Loads(f) ==> r.0 == State(r.1, s.defaultConfig)
    ensures !Loads(f) ==> r.0 == s
    ensures !Loads(f) && s.config.None? ==> r.1 == s.defaultConfig
    ensures !Loads(f) && s.config.Some? ==> r.1 == s.config
  {
    var (s', err) := ReadConfigFile(s, f);
    if err.Some? then
      if s'.config.None? then (s', s'.defaultConfig) else (s', s'.config)
    else
      (s', s'.config)
  }

  /**
   * `HasKey`: a lookup in the cache alone. Indexing a nil map finds
   * nothing, and the default is never consulted.
   */
  function HasKey(s: State, key: string): (r: bool)
    ensures r <==> s.config.Some? && key in s.config.value
  {
    match s.config
    case None => false
    case Some(m) => key in m
  }
}
