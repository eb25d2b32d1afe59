# mcs-proxy-manager supervisor, modelled in Dafny

`server.js` runs a small process supervisor. It clones a repository, starts
an MCP server from it on an internal port, and exposes that server under
`/mcs/<name>` through a proxy rule. It also persists each instance and the
port counter in Redis, so that the fleet can be brought back after a restart.
This project models the supervisor's state machine. The state is:

- the in-memory registry `mcpServers`: an object whose own properties, in
  insertion order, map names to records with a process handle;
- the key/value store, with `next_port` held as decimal text and
  `servers:<name>` holding the JSON record without the handle;
- the in-memory counter `nextAvailablePort`;
- the list of proxy rules, which only ever grows.

Over that state it models the handlers' logic as one atomic step per handler:
- name validation;
- port allocation;
- launch, with clone and launcher results given as inputs;
- the instance list and the health count;
- terminate;
- startup reconciliation.

Modules:

- `Names` (names.dfy): the name pattern, the `servers:<name>` key and the
  name recovered from a key with `split(':')[1]`, and the endpoint paths.
- `Decimal` (decimal.dfy): integer `toString()` and `parseInt(text, 10)`.
- `Records` (records.dfy): records, store values, proxy rules, and the
  registry with its insertion order.
  - the list and health projections;
  - the agreement invariant between registry, store and routes;
  - first-match route resolution.
- `Restore` (restore.dfy): startup reconciliation as a pure fold over the
  visited keys, with its properties.
- `Supervision` (supervisor.dfy): the class `Supervisor`.
  - fields: registry, counter, store and routes;
  - methods: `AllocatePort`, `Launch`, `Terminate` and
    `InitializeFromStore`;
  - each method is proved against the functions above.
  - A ghost field records the ports handed out, so that "strictly
    increasing, counter ahead of all of them" is an invariant of the object.
- `Scenarios` (scenarios.dfy): end-to-end runs, stated as
  client methods that use only the operations' contracts.
- `Findings` (findings.dfy): handler behaviour as written that departs from
  the evident intent. Three cases come from the registry being a plain
  JavaScript object with a prototype. The fourth is the UI catch-all route
  answering GET requests under `/mcs/` before any proxy rule sees them.

Three behaviours of the code are kept as written, although a reader might
expect otherwise:

- Terminate removes the registry entry and the store record but never the
  proxy rule. Rules are only ever appended with `app.use` and none is
  removed. `Scenarios.RelaunchKeepsFirstRoute` shows the consequence:
  after terminate and a relaunch under the same name, the path still
  resolves to the first instance's port.
- A failed restoration is contained to its own record only once the record
  has parsed. `JSON.parse` runs outside the per-record `try`. A record that is
  not JSON therefore throws into the outer handler and ends reconciliation
  for all remaining keys. `InitializeFromStore` returns the key where this
  happened.
- The counter is loaded only when the stored text is non-empty, since `if
  (storedPort)` treats `""` as absent.

## Model

| member | source | states |
|---|---|---|
| Names.ValidNameIff | server.js:170 | The anchored pattern `^[a-zA-Z0-9-_]+$` accepts a string exactly when it is non-empty and every character is an ASCII letter, digit, `-` or `_`. |
| Names.ValidNameHasNoSeparators | server.js:170 | A name that passes the pattern contains neither `:` nor `/`. |
| Names.UpToColon | server.js:57 | The result is the longest prefix of its input without `:`: it is a prefix, it has no `:`, and it stops only at a `:`. |
| Names.NameOfKeyInverts | server.js:57 | For a colon-free name, `split(':')[1]` of `servers:<name>` gives the name back, and that key is canonical. |
| Names.KeyOfNameInverts | server.js:57 | For a canonical key, the recovered name has no `:` and `servers:` plus that name is the key again. |
| Names.ApiEndpointInjective | server.js:212 | Different names get different proxy path strings `/mcs/<name>`. The strings differ; whether Express routes them apart is a separate matter (see `Records.Resolve` under Left out). |
| Decimal.NatDigits | server.js:123 | `toString()` of a non-negative integer is a non-empty string of decimal digits. It starts with `0` only for 0, so it has no leading zeros. |
| Decimal.SkipSpace | server.js:50 | `parseInt` drops exactly the leading ECMAScript white space: what it drops is white space, and what remains is a suffix that does not start with white space. |
| Decimal.LeadingDigits | server.js:50 | The digits `parseInt` reads are the longest prefix made of decimal digits. |
| Decimal.DigitsPrefixValue | server.js:50 | The digit stage yields no number exactly when the text does not start with a digit. |
| Decimal.NatDigitsValue | server.js:123 | The digits `toString()` writes denote the number written. |
| Decimal.ParseIntToDecimal | server.js:50 | `parseInt(n.toString(), 10)` is `n` for every integer `n`, so the persisted counter round-trips. |
| Supervision.Validate | server.js:161-172 | A launch request passes validation exactly when `repoUrl` and `name` are non-empty and the name matches the pattern. The URL is checked first, then the name, then the pattern. A present name that fails the pattern gives `InvalidName`. Every refusal here is a 400. |
| Supervision.CounterSurvivesRestart | server.js:48-51 | A counter stored as `n.toString()` is readable at the next start and is loaded as `n`. |
| Supervision.CounterDefault | server.js:48-51 | With no `next_port` key, the counter stays at the base port 10000. |
| Supervision.Supervisor.constructor | server.js:26-27 | A fresh process starts with an empty registry, counter 10000, no proxy rules and the store as found. |
| Supervision.Supervisor.AllocatePort | server.js:118-126 | Returns the current counter and advances it by exactly one. Persists the advanced value as decimal text under `next_port`. The returned port exceeds every port handed out before, so ports strictly increase and never repeat. |
| Supervision.Supervisor.Launch | server.js:157-232 | Validation failure: 400, nothing changes. Name in the registry or `servers:<name>` in the store: 409, nothing changes. Clone failure: 500, no port consumed. Launcher failure: 500 with exactly one port consumed, and no registry entry, record or route. Success: one port consumed. The registry entry and the stored record carry the same fields, and the stored one has no process. One route `/mcs/<name>` to the port is appended. The reply is the summary with `/mcs/<name>` and `/mcs/<name>/sse`. The list then names the instance exactly once. Agreement of registry, store and routes is preserved. |
| Supervision.LaunchKeepsAgreement | server.js:203-219 | Registering a new valid name, storing its record and appending its route keeps registry, store and routes in agreement. |
| Supervision.Supervisor.Terminate | server.js:248-266 | A name not in the registry gets 404 and nothing changes. Otherwise the handler signals that entry's process, removes exactly that entry and exactly the key `servers:<name>`, and leaves everything else, the routes included, unchanged. Afterwards the list no longer names it and the store has no record for it. Agreement is preserved. |
| Supervision.TerminateKeepsAgreement | server.js:256-263 | Removing an entry and its record keeps registry, store and routes in agreement, and leaves neither a list entry nor a stored record for the name. |
| Supervision.Supervisor.RestoreRecord | server.js:61-91 | One restoration step changes the registry, store and routes exactly as `Restore.RestoreOne` says. On success the step registers the record under the name taken from its key, with the new process, and appends its route. On failure it deletes only that record's key. |
| Supervision.Supervisor.InitializeFromStore | server.js:45-98 | The counter becomes the loaded `next_port` and restoration never changes it again. The new state is exactly the fold `Restore.RestoreAll` over the keys visited. Without a parse failure, every `servers:` key is visited once. With one, the key that failed holds non-JSON and was not visited. A well-formed store, which by `Restore.AgreesWellFormedStore` includes every store an agreeing supervisor leaves behind, restores without a parse failure into an agreeing state. |
| Records.Put | server.js:203-206 | Storing a registry entry keeps the registry well formed. A new name goes to the end of the insertion order, and an existing name keeps its place. |
| Records.Remove | server.js:260 | `delete` removes the name from the registry and from its order. The remaining order is a subsequence of the old one, so the other own keys keep their relative order. The registry stays well formed. |
| Records.SummariesLength | server.js:236-242 | The list has one summary per registry entry. |
| Records.HealthCountsList | server.js:269-273 | The health count equals the length of the instance list. |
| Records.ListedOnce | server.js:236-242 | After storing an entry whose name no entry had, the list contains exactly one summary with that name. |
| Records.UnlistedAfterRemove | server.js:260 | After deleting an entry, the list has no summary with its name. |
| Records.FirstRouteWins | server.js:212-219 | In the rule list, a rule added later never displaces the first rule registered for the same path. |
| Records.ResolveFindsRoute | server.js:212-219 | The rule list yields a port for a path exactly when some rule for that exact path was added, and then the port of one such rule. |
| Restore.RestoreStore | server.js:84-91 | Reconciliation deletes from the store exactly the keys whose relaunch failed, and nothing else. |
| Restore.RestoreRoutes | server.js:73-81 | Reconciliation only appends routes. Every record that came back gets a route to its stored port. Every appended route belongs to a record that came back, so a failed record adds none. |
| Restore.RestoreRoutesCount | server.js:73-81 | With each key visited once, reconciliation appends exactly one route per record that came back. |
| Restore.RestoreRegistry | server.js:63-71 | After reconciliation, the registry holds exactly the records that came back, under the names taken from their keys, with their stored fields and new processes. The registry stays well formed. |
| Restore.AgreesWellFormedStore | server.js:203-209 | The store of every state where registry, store and routes agree is well formed: each `servers:` key is `servers:<name>` for a colon-free name and holds a record of that name. So every store the supervisor leaves behind meets the precondition of `Restore.RestoredAgree`. |
| Restore.RestoredAgree | server.js:54-92 | For a well-formed store, which by `Restore.AgreesWellFormedStore` includes every store an agreeing supervisor leaves behind, reconciliation in any order leaves registry, store and routes in agreement, whatever the launcher reports for each record. |
| Scenarios.FirstLaunchesOnEmptyStore | server.js:118-126 | On an empty store, the first launch gets port 10000 and persists `next_port` as the text of 10001. The second launch gets 10001. |
| Scenarios.InvalidNameConsumesNothing | server.js:170-172 | `bad name!` is refused with 400. The counter stays 10000 and the store is untouched. |
| Scenarios.LaunchThenTerminate | server.js:194-263 | Launching `svc-a` stores a record whose summary is the reply, and the list names it once. After terminate, the list does not name it and the store has no record for it. |
| Scenarios.PortAfterRestart | server.js:48-51 | After a restart that reloads the persisted counter, the next port exceeds every port handed out before the restart. |
| Scenarios.RestartKeepsAgreement | server.js:45-98 | Restarting from the store of an agreeing supervisor (with a readable counter) ends in agreement again, whatever the launcher reports for each record. |
| Scenarios.RelaunchKeepsFirstRoute | server.js:212-219 | After launch, terminate and relaunch of `x`, the second instance gets 10001, but the first rule for `/mcs/x` in the rule list still points at 10000. |
| Findings.TerminateAsWrittenDiffers | server.js:251-257 | While the registry's prototype is still `Object.prototype`, the delete handler as written throws exactly on unregistered names inherited from `Object.prototype`. On every other name it replies as the corrected handler does. The handler as written is the definition `Findings.TerminateAsWritten`, built on the lookup `Findings.LookupAsWritten`. |
| Findings.DeleteConstructorThrows | server.js:251-257 | `constructor` is a valid name with no instance, yet deleting it throws instead of replying 404. |
| Findings.AssignAsWrittenProjections | server.js:203-206 | For every registry, the list and the health count after assigning `__proto__` (the definition `Findings.AssignAsWritten`) are those from before the assignment. After assigning any other name, they are those after `Records.Put`. |
| Findings.ProtoLaunchUnlisted | server.js:203-206 | `__proto__` passes validation and the conflict check. Once assigned, the list does not name it and the health count stays zero. |
| Findings.ProtoStoreWellFormed | server.js:209 | The store holding `servers:__proto__` with a record named `__proto__` is one the launch handler writes: well formed, with `__proto__` recovered from the key. |
| Findings.ProtoRestoreUnlisted | server.js:68-81 | Restoring `servers:__proto__` as written (`Findings.RestoreOneAsWritten`) binds its route but leaves it unlisted and uncounted. The corrected step `Restore.RestoreOne` lists it exactly once. |
| Findings.GetUnderMcsNeverForwarded | server.js:277-281 | For any rule list, a GET to `/mcs/<name>` or to `/mcs/<name>/sse` is answered 404 by the catch-all (`Findings.DispatchAsWritten`). A POST to `/mcs/<name>` reaches the rule the list resolves. |
| Findings.LaunchedInstanceUnreachableByGet | server.js:277-281 | Right after `x` is launched on 10000 its rule resolves, yet a GET to `/mcs/x` gets 404. |

## Left out

- HTTP plumbing is not modelled: Express setup, body parsing, static files and the page the catch-all UI route serves. A reply is a status plus a summary, or a reason.
- Request body fields are strings or absent. Non-string JSON values, such as a number as `name`, are not modelled.
- Cloning (`cloneRepo`, with `git clone`, `fs.ensureDir` and its timestamp directory) is an input: a directory or a failure.
- The launcher (`launchMcpServer`, with `spawn`, output logging and the 5-second `exitCode` check) is an input: running, exited (resolves to `null`), or threw. An `error` event from `spawn` with no listener is not modelled.
- Redis is a map that never fails: connection, retries and event handlers are not modelled. Key enumeration is the set of keys that start with `servers:`. With the client's `keyPrefix` set, `KEYS servers:*` would in practice see no prefixed keys; that interaction is not modelled.
- Proxy forwarding, path rewriting and websocket upgrade are not modelled. A route is a (path, port) pair.
- Records.Resolve: gives the first rule registered for exactly the given path, which is not how Express routes a request. Express matches `app.use` mount paths case-insensitively and by prefix. So after `Svc` and then `svc` both launch (the conflict check at server.js:175-176 is case-sensitive), requests under `/mcs/svc` reach `Svc`'s port; the model does not capture this. The GET catch-all registered before every rule (server.js:277-281) is modelled only in `Findings.DispatchAsWritten`.
- Concurrency is not modelled. Each handler and each restoration step is one atomic transition. The race between the name check (server.js:175) and the insertion (server.js:203) is not modelled, and neither is serving requests before reconciliation ends.
- JSON serialisation is not modelled. A `Doc` value stands for the text of a record that parses back to it. A `Text` value under a `servers:` key stands for text on which `JSON.parse` throws. `startedAt` and the clock are opaque inputs.
- The order in which `KEYS` returns keys, and JavaScript's own ordering of integer-like property names, are not modelled. Reconciliation is proved for every visiting order, and the registry keeps plain insertion order.
- Supervision.Supervisor.AllocatePort: the counter is an unbounded integer. In the source it is a JavaScript number, so it is exact only below 2^53. At 2^53 `nextAvailablePort++` stops advancing and the same port is handed out again, which the model's strict increase does not capture.
- Supervision.LoadedCounter: `parseInt` of a digit string above 2^53 rounds to the nearest double. The model reads the exact integer.
- Supervision.Supervisor.InitializeFromStore: requires a present, non-empty `next_port` to be text that `parseInt` reads as a number. A counter that reads as `NaN` is not modelled.
- Findings.TerminateAsWrittenDiffers: holds only while the registry's prototype is `Object.prototype`. After an as-written launch of `__proto__`, the prototype is that instance's record (server.js:203-206). Deleting one of its field names (`name`, `repoUrl`, `repoDir`, `internalPort`, `startedAt`, `process`) then throws, and deleting `__proto__` kills its process and replies 200 without removing anything. `Registry` has no prototype field, so that state is not modelled.
- Decimal.ParseIntToDecimal: covers integer `toString()` only. Exponent notation for magnitudes of 1e21 and above is not modelled.
- Shutdown (signal handlers, killing every process, `quit`, `process.exit`) and all console logging are not modelled.
- Sending the kill signal is the `Terminated(process)` reply. Failure to signal is not modelled.

## Findings

| source | as written | input that shows it | evidently intended | confidence | as-written member | corrected member |
|---|---|---|---|---|---|---|
| server.js:251-257 | The 404 guard tests `mcpServers[name]`, which also finds members inherited from `Object.prototype`. `server.process.kill()` then runs on a function with no `process` and throws a TypeError. | `DELETE /api/servers/constructor` with no instance running | 404 for every name that is not a registered instance | not executed; high that the call throws | Findings.DeleteConstructorThrows | Supervision.Supervisor.Terminate |
| server.js:203-206 | `mcpServers[name] = …` with the name `__proto__`, which the pattern allows, replaces the registry's prototype instead of adding an own property. `Object.values` and `Object.keys` then miss the instance. | `POST /api/launch` with name `__proto__` on an empty supervisor, clone and launcher succeeding | the instance is listed once and counted by the health check | not executed; medium | Findings.ProtoLaunchUnlisted | Supervision.Supervisor.Launch |
| server.js:68-71 | Restoration makes the same assignment. The record `servers:__proto__`, which the launch handler writes at server.js:209, is relaunched and its route bound, but it gets no own registry entry. | a store holding `servers:__proto__` with a record named `__proto__`, launcher succeeding at startup | the restored instance is listed once and counted by the health check | not executed; medium | Findings.ProtoRestoreUnlisted | Supervision.Supervisor.RestoreRecord |
| server.js:277-281 | `app.get('*')` is registered when the module loads, before any proxy rule is added with `app.use`. It answers 404 to every GET whose URL starts with `/mcs/` instead of passing the request on. | `GET /mcs/x/sse` right after `x` was launched | GET requests under `/mcs/<name>` reach that instance's proxy rule, as other methods do | not executed; high | Findings.LaunchedInstanceUnreachableByGet | Records.ResolveFindsRoute |
