# configmodule: the configuration cache, in Dafny

This project models the configuration cache of the Go package `configmodule`
(`configurator.go`). The package keeps two globals: `config`, the cached
`map[string]string`, which starts out nil, and `defaultConfig`. Four operations
act on them:

- `InitConfig` records the default and clears the cache to nil.
- `parseJSON` folds the item list of a decoded `{"data":{"item":[{key,value},...]}}`
  envelope into a fresh map. That map replaces the cache wholesale. A decode
  error leaves the cache alone.
- `GetConfig` fetches the configuration from the remote endpoint and then picks
  what to return. After a good fetch it returns the fresh map. After a failed
  fetch it returns the default if nothing was ever loaded, and the stale cache
  otherwise.
- `HasKey` looks a key up in the cache only.

The globals become an immutable `State(config, defaultConfig)`. Each operation is
a pure function from the old state to the new state and its Go return value. A Go
nil-or-map `Config` is an `Option<map<string, string>>`. This makes "never loaded"
(`None`) different from "loaded an empty list" (`Some(map[])`), as in Go.
The default is nil-able too, because Go lets a caller pass a nil default.

The HTTP round trip and `json.Unmarshal` are replaced by a `Fetch` value given as
a parameter. It is one of: the request could not be built, sending failed, reading
the body failed, or a body arrived and decoding it failed or produced a
`JsonData`. A missing `data` or `item` field decodes to an empty item list.
`readConfigFile` does not look at the HTTP status code. So an error response
whose body is JSON without the envelope decodes to an empty list and empties the
cache. The model keeps that behaviour: any `Body(Decoded(...))` loads.

Files:

- `wrappers.dfy`: module `Wrappers`, the `Option` type that stands for Go's nil.
- `items.dfy`: module `ItemFold`. It holds `Item`/`Data`/`JsonData`, the left fold
  `Fold` and the loop `BuildConfig` that computes it. It also holds the
  independent reference predicate `IsLastWriteMap`: the keys are exactly the item
  keys, and each key holds the value of the last item carrying it.
- `configurator.dfy`: module `Configurator`, holding the state, the fetch
  outcome and the four operations, plus `readConfigFile`.
- `properties.dfy`: module `CacheProperties`, with lemmas about sequences of
  calls, including any run of `GetConfig` calls.

`configurator.go` has no file store, locking, refresh loop or add/update/delete
operations. `InitConfig`'s doc comment (configurator.go:49) says it creates a
file, but the code does not, and the model follows the code.

## Model

| member | source | states |
|---|---|---|
| ItemFold.FoldIsLastWriteMap | configurator.go:41-44 | The map built from the item list has exactly the item keys, and each key holds the value of the last item carrying it |
| ItemFold.FoldKeys | configurator.go:41-44 | A key is in the built map iff some item carries it |
| ItemFold.FoldLastWins | configurator.go:42-44 | With duplicate keys, the built map holds the value of the last item with that key |
| ItemFold.LastWriteMapUnique | configurator.go:41-44 | "Exactly the item keys, last write wins" determines the map completely: two maps meeting it for the same items are equal |
| ItemFold.BuildConfig | configurator.go:41-44 | The range loop over the items, starting from an empty map and assigning each item in order, computes the fold |
| Configurator.InitConfig | configurator.go:50-54 | Always returns a nil error, stores the given default and resets the cache to nil |
| Configurator.ParseJson | configurator.go:33-47 | A decode error returns the error and leaves the state unchanged. A decoded envelope returns nil and puts a non-nil last-write map of its items in the cache, keeping the default |
| Configurator.ReadConfigFile | configurator.go:74-118 | Reports an error exactly when no item list was decoded, and then leaves the state unchanged. Otherwise the cache becomes the fold of the decoded items |
| Configurator.GetConfig | configurator.go:57-72 | A successful load returns the fresh map, which is now the cache. A failed fetch leaves the state unchanged and returns the default when the cache is nil, or the stale cache otherwise |
| Configurator.HasKey | configurator.go:119-123 | True iff the cache is non-nil and holds the key. A nil cache holds nothing, and the default is never consulted |
| CacheProperties.InitHidesEveryKey | configurator.go:50-54 | After `InitConfig`, `HasKey` is false for every key, including keys of the default |
| CacheProperties.InitIgnoresPathAndHistory | configurator.go:50-54 | The state after `InitConfig` does not depend on the file path or on the state before |
| CacheProperties.InitThenFailedGetReturnsDefault | configurator.go:50-54 | After `InitConfig`, a failed fetch makes `GetConfig` return exactly the recorded default |
| CacheProperties.ParsedKeyIffSomeItem | configurator.go:41-44 | After a successful parse, `HasKey` is true exactly for the keys some decoded item carries |
| CacheProperties.ParsedValueIsLastItems | configurator.go:42-44 | After a successful parse, the cached value of a key is that of the last item with that key |
| CacheProperties.ParseReplacesWholesale | configurator.go:41 | A key cached before a successful parse, and missing from the new item list, is gone afterwards |
| CacheProperties.DecodeFailureKeepsCache | configurator.go:36-39 | A decode error keeps the cache as it was, nil included, and reports the parse error |
| CacheProperties.EmptyLoadShadowsDefault | configurator.go:41-44 | Loading an empty item list caches a non-nil empty map, so a later failed `GetConfig` returns that empty map and not the default |
| CacheProperties.OnceLoadedNeverNil | configurator.go:58-71 | Once the cache is non-nil, `GetConfig` keeps it non-nil and never returns nil |
| CacheProperties.GetConfigNilOnlyFromNilDefault | configurator.go:58-71 | `GetConfig` returns nil iff the fetch failed, nothing was ever loaded and the default is nil |
| CacheProperties.HasKeyAgreesWithGetConfig | configurator.go:119-123 | Unless `GetConfig` fell back to the default, `HasKey` afterwards agrees with membership in the map it returned |
| CacheProperties.HasKeyIgnoresDefault | configurator.go:62-64 | When `GetConfig` returns the default, `HasKey` still finds no key |
| CacheProperties.RunGetsCache | configurator.go:57-72 | Over any run of `GetConfig` calls the default never changes. The cache ends up as the map of the last successful load, or as the starting cache if no load succeeded |

`HasKey` is a pure function of the state and returns no new state. So it cannot
change the cache, and no separate lemma is needed for that.

## Left out

- The HTTP request in `readConfigFile` is left out. This covers the URL built from the `CORE_HOST` environment variable, the bearer token from `CORE_TOKEN`, the headers, the TLS transport, the 10-second client timeout, `client.Do`, `io.ReadAll` and closing the body. It is network and environment I/O, so its outcome is the `Fetch` parameter.
- `json.Unmarshal` is a foreign library call. Its result, an error or a decoded `JsonData`, is part of the `Fetch` value.
- The `fmt.Println` logging in `GetConfig` has no effect on state.
- Concurrency is left out. The package has no locking, so the operations are modelled as strictly sequential.
- Map aliasing is left out. `GetConfig` returns the cached map itself, so in Go a caller that writes to the result also changes the cache. Dafny maps are values, so the model cannot express this.
- `configurator.go` does not compile as written: `tls` is not imported, `client` is not declared, and a comma is missing after `Transport: tr`. These lines lie inside the fetch, which is abstracted away.
- Go strings are byte strings, while a Dafny `string` is a `seq<char>`. No behaviour is lost: decoded item keys are always valid UTF-8, and `HasKey` never looks at the default, whose keys are passed through unchanged.
