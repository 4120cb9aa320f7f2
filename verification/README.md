# A model of the TestRPC HTTP server and its reactive block tracker

This project models two small decision procedures of the TestRPC server
(`lib/server.js`). TestRPC is a local JSON-RPC Ethereum simulator.

- **ReactiveBlockTracker** is the first provider in the request chain. A
  table maps JSON-RPC method names to a timing. For a method mapped to
  `"before"`, the tracker fetches the latest block and commits it as the
  engine's current block. Only then does it call `next()`. For any other
  configured value, it calls `next(fn)`. There `fn` fetches and commits
  once the chain below has finished, and then calls the engine's `cb()`.
  A failed fetch calls `end(err)` and commits nothing. A method with no
  entry just calls `next()`.
- **The HTTP request handler** turns a finished request into a response.
  It uses the HTTP verb, whether the body parses as JSON, and how the
  provider's `sendAsync` ended. It also logs method names: one for a single
  payload, one per element in order for a batch.

The provider engine (`web3-provider-engine`) is not part of this model. Its
callbacks appear only as effects in a trace (`BlockTracker.Effect`):
`next()`, `next(fn)`, `end(err)`, `cb()`, the fetch of the latest block and
`_setCurrentBlock`. The fetch outcome is an input to each step. Within a
step the only state is the shared current block. `BlockTracker.Serve` runs
requests one after another against that cell. It takes the policy lookup
as a parameter, so its theorems hold both for the source's lookup and for
the own-entry lookup. JSON parsing, JSON
serialisation and `sendAsync` are function-typed parameters of the handler.

Modules: `Wrappers` (Option), `JsValues` (parsed JSON values, `Error`, and
reading `.method`), `BlockTracker`, and `HttpHandler`.

The source's comment (lib/server.js:26-28) says the tracker refreshes the
block before or after "certain requests". The code goes further in three
ways that the model keeps:
- Under "after", a failed fetch in the unwind callback calls `end(err)` and
  never calls `cb()` (lib/server.js:38-44, 51-53). What the engine then
  reports is engine behaviour, which is not part of this model.
- The body of a 500 response is `err.stack`.
- The table is a plain object, so inherited `Object.prototype` names are
  synchronised too (Findings, row 1).

## Model

| member | source | states |
|---|---|---|
| `BlockTracker.DefaultPolicy` | lib/server.js:15-23 | With the constructor's table, exactly `eth_call` and `eth_getStorageAt` sync before. Every other method, `eth_getFilterChanges` included, gets no sync, and no method syncs after. |
| `BlockTracker.DefaultPolicyAsWritten` | lib/server.js:15-32 | As the source looks up the constructor's table, the same two methods sync before. Exactly the `Object.prototype` names sync after. |
| `BlockTracker.LookupAsWritten` | lib/server.js:32 | `this.methods[name]` is `undefined` exactly when the name is neither an own key nor an inherited prototype member. An own key yields its table value. |
| `BlockTracker.PolicyAsWritten` | lib/server.js:32-50 | The source's branch choice: no sync iff the lookup is `undefined`; sync before iff the own entry is `"before"`. |
| `BlockTracker.PolicyFor` | lib/server.js:32-50 | With own-entry lookup: no sync iff there is no entry; before iff the entry is `"before"`; after iff the entry is any other value. |
| `BlockTracker.PolicyAgreesOffPrototype` | lib/server.js:32-36 | For every name that is not inherited from `Object.prototype`, the source's lookup and the own-entry lookup choose the same policy. |
| `BlockTracker.ToStringSyncsAfter` | lib/server.js:32-50 | `toString` has no table entry, yet the source takes the "after" branch for it. The own-entry lookup gives no sync. |
| `BlockTracker.Replay` | lib/server.js:41 | The current block after a trace is the block of its last commit: the trace has a commit at some position and none after it. With no commit it is the starting block. |
| `BlockTracker.ReplayAppend` | lib/server.js:41 | Replaying two traces in turn equals replaying their concatenation. |
| `BlockTracker.Forward` | lib/server.js:34-54 | The tracker hands control on exactly once, as its last effect. With no entry it calls `next()` alone and keeps the block. Under "before" with a good fetch it commits the fetched block before `next()`, and the chain below sees that block. A failed fetch ends with that error, commits nothing and never calls `next`. Under "after" it only calls `next(fn)`, with no fetch. |
| `BlockTracker.Unwind` | lib/server.js:38-53 | The callback handed to `next` fetches first. It calls `cb()` iff the fetch succeeded, and then only right after committing the fetched block. A failed fetch ends with that error and commits nothing. |
| `BlockTracker.HandleRequest` | lib/server.js:29-55 | `handleRequest` with own-entry lookup. A method without an entry calls only `next()` and keeps the block. A fetch happens in the forward pass iff the entry is `"before"`. |
| `BlockTracker.HandleRequestAsWritten` | lib/server.js:29-55 | `handleRequest` as written. An inherited name without an entry calls `next(fn)`. Off the prototype names it is `HandleRequest`. |
| `BlockTracker.FetchBlock` | lib/server.js:38-44 | `fetchBlock(cb)` fetches first and hands control on exactly once, at the end. A failed fetch gives `end(err)` with that error and no commit, and `cb` is never called. A good fetch makes the fetched block current, and the commit comes immediately before `cb`. |
| `BlockTracker.ServeOne` | lib/server.js:29-55 | For either policy lookup (the source's or the own-entry one): a request's full passage through the tracker fetches iff its method's policy is not "no sync", and otherwise is `next()` alone. It leaves the fetched block current iff it synchronises and the fetch succeeded. Under "after", control passes down the chain before the fetch. |
| `BlockTracker.InheritedNameServedAsWritten` | lib/server.js:32-53 | With the source's lookup, a request for an inherited name that has no entry fetches after the chain. With own-entry lookup it is only `next()`. |
| `BlockTracker.Serve` | lib/server.js:29-55 | Requests served one after another leave as current block the last commit of the combined effect log. When no request synchronises, each one is a bare `next()` and the block never moves. |
| `BlockTracker.ServeKeepsHead` | lib/server.js:38-44 | For any policy lookup, the source's as well as the own-entry one, the current block after a sequence of requests is the block of the last synchronising request whose fetch succeeded, or the initial block. |
| `JsValues.ReadMethodAsWritten` | lib/server.js:110-114 | Reading `.method` of a parsed payload throws exactly on `null`. It is defined exactly for an object with a `method` key, and then gives that key's value. |
| `JsValues.ReadMethod` | lib/server.js:110-114 | The non-throwing read gives `undefined` for `null`. It agrees with the source's read everywhere else. |
| `HttpHandler.ResponseFor` | lib/server.js:81-139 | Every response carries the three CORS headers and a `Content-Type`. The type is `application/json` iff the response is a POST with status 200, and `text/plain` otherwise. OPTIONS gives 200 with an empty body. Status 400 (body `400 Bad Request`) iff the verb is neither OPTIONS nor POST, or the POST body does not parse. Status 500 iff dispatch failed, with body `err.stack`. A POST with 200 carries the stringified result. |
| `HttpHandler.ClientRecoversResult` | lib/server.js:123-125 | When parsing inverts stringifying, parsing the body of a 200 POST response gives back exactly the provider's result. |
| `HttpHandler.BatchLogAsWritten` | lib/server.js:107-112 | The batch loop logs each element's `method` in index order. It stops with a throw exactly at the first `null` element. |
| `HttpHandler.LogPayloadAsWritten` | lib/server.js:107-115 | A non-array payload logs its single `method` once, or throws iff it is `null`. |
| `HttpHandler.MethodsOf` | lib/server.js:109-112 | One log line per batch element, in order, each that element's `method`. |
| `HttpHandler.LoggingAgrees` | lib/server.js:107-115 | The source's logging throws exactly on a `null` payload or a batch with a `null` element. Otherwise it logs what the non-throwing logging logs. Before a throw it has logged a strict prefix of that. |
| `HttpHandler.Handle` | lib/server.js:87-139 | Every request gets a response. The provider receives the payload iff the verb is POST and the body parses. Nothing is logged otherwise. A batch logs one `method` per element in index order, and a single payload logs its `method` exactly once. |
| `HttpHandler.HandleAsWritten` | lib/server.js:87-139 | The handler as written throws with no response iff a parsed POST payload is `null` or holds a `null` element. Before that it has logged a strict prefix of what `Handle` logs. In every other case it is `Handle`. |
| `HttpHandler.NullBodyGetsNoResponse` | lib/server.js:96-115 | The body `null` parses, yet the handler as written throws on it. The non-throwing handler answers it and logs one `undefined`. |
| `HttpHandler.ProviderNotConsulted` | lib/server.js:96-104 | A request that is not a parseable POST gives the same exchange whatever the provider would answer. |

## Left out

- Node `http` plumbing (lib/server.js:65-80): the server, body chunks, `Buffer.concat`, and the swallowed request `'error'` event are I/O. The model starts from the finished body and returns the response as a value instead of calling `writeHead`/`end`.
- `startServer` (lib/server.js:186-222): the port default 8545, the version banner, the account listing, `listen` and the callback. These are asynchronous I/O. The error argument of `waitForInitialization` is ignored at line 202.
- `Server.provider` (lib/server.js:161-184): it builds the engine and registers the providers in a fixed order (tracker, filters, VM, manager). This is construction wiring over classes that are not part of this model. The Manager (`./manager.js`) is not part of this model.
- `web3-provider-engine` (`_fetchBlock`, `_setCurrentBlock`, `sendAsync`, how `next`/`end`/`cb` move through the chain) is not part of this model. The fetch outcome and the dispatch outcome are inputs.
- Concurrency between in-flight requests that share the current block. `BlockTracker.Serve` runs requests one after another.
- BlockTracker.FetchBlock: requires `cb` to be a continuation (`next()` or the engine's `cb()`), because in the source it is always a callback and never a commit.
- The logger defaults (lib/server.js:60-62, 164-168) and the commented-out `jayson` block (lib/server.js:145-155), which is dead code.
- JSON parsing and serialisation are parameters, so their behaviour is not modelled. JSON numbers are reals, not IEEE doubles.
- BlockTracker.HandleRequest: the method name is taken as a string key. JavaScript would convert a non-string `payload.method` to a string before the lookup, and the model does not do that conversion.
- HttpHandler.ResponseFor: a dispatch error is modelled as an `Error` with a `stack`. A non-`Error` value (whose `stack` is `undefined`, giving an empty body) is not modelled.
- Whether the provider answers a batch with an array and a single payload with a single object is up to the engine. The handler only stringifies what it gets back.

## Findings

| source | as written | input that shows it | evidently intended | confidence | as-written member | corrected member |
|---|---|---|---|---|---|---|
| lib/server.js:32-54 | `this.methods[payload.method]` reads a plain object literal. For a name inherited from `Object.prototype`, the value is not `null`, so the "after" branch runs and fetches the latest block after the chain. | a request with method `toString` (or `constructor`, `valueOf`, ...) | a method without a table entry calls `next()` with no fetch | not executed; high | `BlockTracker.PolicyAsWritten`, `BlockTracker.ToStringSyncsAfter`, `BlockTracker.InheritedNameServedAsWritten` | `BlockTracker.PolicyFor`, `BlockTracker.DefaultPolicy`, `BlockTracker.HandleRequest` |
| lib/server.js:107-115 | `payload.method` and `item.method` are read with no null check. A parsed `null` payload or `null` batch element throws a TypeError inside the request's `end` listener, so no response is written. Nothing visible catches it, so by default the exception also ends the Node process. | POST with body `null` (or `[null]`) | every POST whose body parses gets a response | not executed; medium | `HttpHandler.HandleAsWritten`, `HttpHandler.NullBodyGetsNoResponse` | `HttpHandler.Handle` |
