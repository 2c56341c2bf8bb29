# Database-metadata store of pgManage, in Dafny

pgManage's front end keeps a client-side cache of database structure in the
Pinia store `useDbMetadataStore`. The field `dbMeta` maps a connection
index to a map from database name to an entry: the schema list that the
back end's `/get_database_meta/` endpoint returned for that database. The
store has three operations:

- `getDbMeta(conn, db)` is a synchronous lookup. It returns the entry, or
  `undefined` when either the connection or the database is unknown.
- `fetchDbMeta(conn, workspace, db)` populates the cache lazily. On a hit it
  posts nothing. On a miss it posts `{database_index, workspace_id,
  database_name}` once and stores `response.data.schemas` at `[conn][db]`.
- `refreshDBMeta(conn, workspace, db)` always posts. It overwrites or
  creates the entry, creating the inner map for a new connection, and
  resolves to the whole response.

Both asynchronous operations reject with the collaborator's error when the
request fails.

The store's own source (`src/stores/db_metadata.js`) is not part of this
model. Its behaviour is taken from the assertions of
`pgmanage/app/static/pgmanage_frontend/test/stores/db_metadata.test.js`.

Files:

- `db_metadata.dfy`, module `DbMetadata`, holds the data model. It has the
  request and response datatypes, the value-level functions `Lookup`,
  `Stored` and `Step`, and the class `DbMetadataStore`. The class has the
  mutable fields `dbMeta` and `initialized` and a ghost log `requests` of
  every request posted. Its methods are proved against `Stored` and `Step`.
- `db_metadata_trace.dfy`, module `DbMetadataTrace`, covers sequences of
  calls. `Run` is the cache after the calls and `Log` is the requests they
  post. Lemmas proved by induction state the cache's invariants over any
  sequence of calls.
- `db_metadata_scenarios.dfy`, module `DbMetadataScenarios`, replays each
  test case against the class. Each replay's `ensures` is the test's
  expectation. Where a test checks the mocked `axios.post`, the replay
  returns the store's ghost request log as a ghost result `posted`, and its
  `ensures` states what was posted.

The entry type is a type parameter `E`, because the store passes entries
through without reading them. The tests store both an object and an array
there. The collaborator (`axios.post`) becomes a parameter `answer: FetchResult<E, X>`.
It is either `Ok(response)` or `Err(message)`, and it is the answer the
collaborator would give to the request that the call posts. A response
holds `data.schemas` and, in both the response and its `data`, a field
`rest` of the opaque type `X` that stands for every other field. The store
never reads `rest`, but `refreshDBMeta` hands it back to its caller.

## Model

| member | source | states |
|---|---|---|
| `DbMetadata.DbMetadataStore.constructor` | pgmanage/app/static/pgmanage_frontend/test/stores/db_metadata.test.js:17-20 | a new store has an empty `dbMeta`, `initialized` is the string "false", and nothing has been posted |
| `DbMetadata.DbMetadataStore.GetDbMeta` | pgmanage/app/static/pgmanage_frontend/test/stores/db_metadata.test.js:22-38 | the result is present exactly when the connection is known and the database is known under it, and then it is the stored entry; an unknown connection reads as absent, not as a failure |
| `DbMetadata.Stored` | pgmanage/app/static/pgmanage_frontend/test/stores/db_metadata.test.js:115-140 | writing an entry makes `(conn, db)` read back as that entry and leaves every other key as it was; the outer keys gain `conn`; an existing connection gains `db`; a new connection holds only `{db: entry}` |
| `DbMetadata.DbMetadataStore.FetchDbMeta` | pgmanage/app/static/pgmanage_frontend/test/stores/db_metadata.test.js:40-87 | on a hit, nothing is posted and nothing changes; on a miss, exactly the request `{database_index, workspace_id, database_name}` to `/get_database_meta/` is posted; a response stores `data.schemas` at `(conn, db)` and nothing else changes; a rejection fails with the same message; `initialized` is untouched |
| `DbMetadata.DbMetadataStore.RefreshDBMeta` | pgmanage/app/static/pgmanage_frontend/test/stores/db_metadata.test.js:89-148 | the request is posted whatever is cached; a response replaces or creates the entry, creating the connection's inner map, and is returned whole, with the fields other than `data.schemas` included; a rejection is returned with the same message |
| `DbMetadataTrace.Provenance` | pgmanage/app/static/pgmanage_frontend/test/stores/db_metadata.test.js:40-141 | after any sequence of calls, `(conn, db)` is cached exactly when it was cached before or some call to that key received a response, so an entry is never evicted |
| `DbMetadataTrace.PerKeyIsolation` | pgmanage/app/static/pgmanage_frontend/test/stores/db_metadata.test.js:59-66 | the entry at `(conn, db)` after any calls equals what the calls addressed to `(conn, db)` alone would leave, so calls to other keys never disturb it |
| `DbMetadataTrace.IsolationFrom` | pgmanage/app/static/pgmanage_frontend/test/stores/db_metadata.test.js:59-66 | the same as `PerKeyIsolation`, for two caches that agree at `(conn, db)` |
| `DbMetadataTrace.CachedFetchesAreNoOps` | pgmanage/app/static/pgmanage_frontend/test/stores/db_metadata.test.js:69-79 | once `(conn, db)` is cached, any number of fetches of it post nothing and leave the cache unchanged |
| `DbMetadataTrace.FetchPostsOnce` | pgmanage/app/static/pgmanage_frontend/test/stores/db_metadata.test.js:40-79 | a successful fetch of a cold key followed by any number of fetches of that key posts exactly one request and leaves the first response's schemas stored |
| `DbMetadataTrace.RefreshesAlwaysPost` | pgmanage/app/static/pgmanage_frontend/test/stores/db_metadata.test.js:89-113 | a sequence of refreshes posts one request per refresh, in order, whatever is cached |
| `DbMetadataTrace.LogBound` | pgmanage/app/static/pgmanage_frontend/test/stores/db_metadata.test.js:53-57 | a sequence of calls posts at most one request per call |
| `DbMetadataTrace.RejectedCallChangesNothing` | pgmanage/app/static/pgmanage_frontend/test/stores/db_metadata.test.js:81-87 | deleting a rejected call from any sequence of calls leaves the final cache the same |
| `DbMetadataTrace.RunAppend` | pgmanage/app/static/pgmanage_frontend/test/stores/db_metadata.test.js:40-141 | running two sequences of calls one after the other is the same as running their concatenation |
| `DbMetadataScenarios.InitializesWithDefaultState` | pgmanage/app/static/pgmanage_frontend/test/stores/db_metadata.test.js:17-20 | a new store reports `initialized` "false" and an empty cache |
| `DbMetadataScenarios.RetrievesFromState` | pgmanage/app/static/pgmanage_frontend/test/stores/db_metadata.test.js:22-31 | after `dbMeta` is assigned `{1: {test_db: entry}}`, `getDbMeta(1, "test_db")` returns that entry, for every entry |
| `DbMetadataScenarios.ReturnsAbsentWhenMissing` | pgmanage/app/static/pgmanage_frontend/test/stores/db_metadata.test.js:33-38 | on an empty cache, `getDbMeta(1, "test_db")` is absent |
| `DbMetadataScenarios.FetchesAndStores` | pgmanage/app/static/pgmanage_frontend/test/stores/db_metadata.test.js:40-67 | a fetch on an empty cache settles, leaves `{1: {test_db: [schema1, schema2]}}`, and its `posted` log is exactly the one request `{database_index: 1, workspace_id: "workspace1", database_name: "test_db"}` to `/get_database_meta/` |
| `DbMetadataScenarios.DoesNotFetchWhenCached` | pgmanage/app/static/pgmanage_frontend/test/stores/db_metadata.test.js:69-79 | a fetch of a cached key has an empty `posted` log, settles, and leaves the cache as assigned, whatever the collaborator would answer |
| `DbMetadataScenarios.FetchPropagatesError` | pgmanage/app/static/pgmanage_frontend/test/stores/db_metadata.test.js:81-87 | a fetch whose request is rejected with "Network Error" fails with "Network Error" |
| `DbMetadataScenarios.RefreshOverwrites` | pgmanage/app/static/pgmanage_frontend/test/stores/db_metadata.test.js:89-122 | a refresh over `old_schema` has as its `posted` log exactly the request `{database_index: 1, workspace_id: "workspace1", database_name: "test_db"}` to `/get_database_meta/`, leaves `{1: {test_db: [schema3]}}`, and returns the whole response |
| `DbMetadataScenarios.RefreshCreatesConnection` | pgmanage/app/static/pgmanage_frontend/test/stores/db_metadata.test.js:124-141 | a refresh for connection 2 on an empty cache leaves exactly `{2: {new_db: [new_schema]}}` |
| `DbMetadataScenarios.RefreshPropagatesError` | pgmanage/app/static/pgmanage_frontend/test/stores/db_metadata.test.js:142-148 | a refresh whose request is rejected with "Request failed" fails with "Request failed" |

## Left out

- The HTTP transport is not modelled: `axios.post`, its headers and the test
  mocks. The collaborator's answer is a parameter, and a ghost request log
  records what the mocks observe.
- Promises and asynchronous suspension are not modelled. Each call is one
  atomic step. So the race in which two concurrent `fetchDbMeta` calls both
  miss and both post is not modelled.
- Pinia reactivity and the store's lifecycle (`setActivePinia`,
  `createPinia`) are not modelled. They are framework plumbing.
- The `initialized` flag is modelled only as its initial value, the string
  "false", which every operation leaves untouched. No test gives it any other
  meaning. It is a non-empty string, so it is truthy in JavaScript, although
  a flag that "starts falsy" is what one would expect. The model follows the
  tests.
- The presence check is modelled as "the key is in the map". The store's
  source is not part of this model, so whether it tests presence by
  truthiness is unknown. The two differ for a falsy entry, which no test
  stores. They also differ for inherited property names, as the next line
  says.
- The cache's keys are modelled as Dafny maps, which have no inherited
  property names. In the store, `dbMeta` and its inner maps are plain
  JavaScript objects. Reading one at a name inherited from `Object.prototype`
  finds a value. For example, `getDbMeta(1, "constructor")` finds `Object`,
  so `fetchDbMeta(1, w, "constructor")` would post nothing. Writing at
  `"__proto__"` replaces the object's prototype and adds no entry. Database
  names that clash with such property names are not modelled: the model
  reads them as absent and stores them as ordinary keys.
- The cache is modelled as unchanged after a rejected request. The tests
  assert only that the error is passed on. This is a modelling choice: the
  write follows the awaited answer, so a rejection happens before it.
- RefreshDBMeta and FetchDbMeta: an answer that resolves without a `data`
  field, or with a `data` that has no `schemas` field, cannot be expressed,
  because `Response` always holds both. In JavaScript, a missing `data`
  makes reading `response.data.schemas` throw, so the call rejects. A
  missing `schemas` stores `undefined` at the key. Neither case appears in
  the tests.
- The structure of schema and table descriptors is not modelled. The store
  passes them through, so the entry is a type parameter. The test replays
  use a small `Schema` record.
