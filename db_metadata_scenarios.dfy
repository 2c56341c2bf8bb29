/**
 The store's test cases, each replayed against `DbMetadataStore`. The
 collaborator's answer that the tests mock is passed in; the ghost request log
 stands for the tests' checks on the mocked `axios.post`.
 */
module DbMetadataScenarios {
  import opened DbMetadata

  /** A schema descriptor as the back end returns it; the tables are not interpreted. */
  datatype Schema = Schema(name: string, tables: seq<string>)

  /** A fresh store: `initialized` is "false" and the cache is empty. */
  method InitializesWithDefaultState<E>() returns (initialized: string, meta: Meta<E>)
    ensures initialized == "false"
    ensures meta == map[]
  {
    var store := new DbMetadataStore<E>();
    initialized, meta := store.initialized, store.dbMeta;
  }

  /** An entry assigned into the cache is what `getDbMeta` returns. */
  method RetrievesFromState<E>(entry: E) returns (meta: Option<E>)
    ensures meta == Some(entry)
  {
    var store := new DbMetadataStore<E>();
    store.dbMeta := map[1 := map["test_db" := entry]];
    meta := store.GetDbMeta(1, "test_db");
  }

  /** An unknown connection reads as absent. */
  method ReturnsAbsentWhenMissing<E>() returns (meta: Option<E>)
    ensures meta == None
  {
    var store := new DbMetadataStore<E>();
    store.dbMeta := map[];
    meta := store.GetDbMeta(1, "test_db");
  }

  /** A fetch on an empty cache posts one request and stores the response's schemas. */
  method FetchesAndStores() returns (outcome: Outcome, meta: Meta<seq<Schema>>, ghost posted: seq<Request>)
    ensures outcome == Pass
    ensures meta == map[1 := map["test_db" := [Schema("schema1", []), Schema("schema2", [])]]]
    ensures posted == [Request("/get_database_meta/", RequestBody(1, "workspace1", "test_db"))]
  {
    var schemas := [Schema("schema1", []), Schema("schema2", [])];
    var store := new DbMetadataStore<seq<Schema>>();
    outcome := store.FetchDbMeta(1, "workspace1", "test_db", Ok(Response(Payload(schemas, ()), ())));
    meta, posted := store.dbMeta, store.requests;
  }

  /** A fetch of a cached entry posts nothing, whatever the collaborator would answer. */
  method DoesNotFetchWhenCached<E, X>(entry: E, answer: FetchResult<E, X>)
    returns (outcome: Outcome, meta: Meta<E>, ghost posted: seq<Request>)
    ensures posted == []
    ensures outcome == Pass
    ensures meta == map[1 := map["test_db" := entry]]
  {
    var store := new DbMetadataStore<E>();
    store.dbMeta := map[1 := map["test_db" := entry]];
    outcome := store.FetchDbMeta(1, "workspace1", "test_db", answer);
    meta, posted := store.dbMeta, store.requests;
  }

  /** A rejected fetch fails with the collaborator's message. */
  method FetchPropagatesError<E>() returns (outcome: Outcome)
    ensures outcome == Fail("Network Error")
  {
    var store := new DbMetadataStore<E>();
    var answer: FetchResult<E, ()> := Err("Network Error");
    outcome := store.FetchDbMeta(1, "tab1", "test_db", answer);
  }

  /** A refresh posts even when cached, replaces the entry and returns the whole response. */
  method RefreshOverwrites() returns (result: FetchResult<seq<Schema>, ()>, meta: Meta<seq<Schema>>, ghost posted: seq<Request>)
    ensures posted == [Request("/get_database_meta/", RequestBody(1, "workspace1", "test_db"))]
    ensures meta == map[1 := map["test_db" := [Schema("schema3", [])]]]
    ensures result == Ok(Response(Payload([Schema("schema3", [])], ()), ()))
  {
    var response := Response(Payload([Schema("schema3", [])], ()), ());
    var store := new DbMetadataStore<seq<Schema>>();
    store.dbMeta := map[1 := map["test_db" := [Schema("old_schema", [])]]];
    result := store.RefreshDBMeta(1, "workspace1", "test_db", Ok(response));
    assert store.dbMeta[1] == map["test_db" := [Schema("schema3", [])]];
    assert store.dbMeta.Keys == {1};
    meta, posted := store.dbMeta, store.requests;
  }

  /** A refresh for an unknown connection creates it, holding only the refreshed database. */
  method RefreshCreatesConnection() returns (meta: Meta<seq<Schema>>)
    ensures meta == map[2 := map["new_db" := [Schema("new_schema", [])]]]
  {
    var store := new DbMetadataStore<seq<Schema>>();
    store.dbMeta := map[];
    var result := store.RefreshDBMeta(2, "workspaceX", "new_db", Ok(Response(Payload([Schema("new_schema", [])], ()), ())));
    meta := store.dbMeta;
  }

  /** A rejected refresh fails with the collaborator's message. */
  method RefreshPropagatesError<E>() returns (result: FetchResult<E, ()>)
    ensures result == Err("Request failed")
  {
    var store := new DbMetadataStore<E>();
    result := store.RefreshDBMeta(1, "workspace1", "failing_db", Err("Request failed"));
  }
}
