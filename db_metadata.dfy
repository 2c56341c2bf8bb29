/**
 The database-metadata store of the pgManage front end (`useDbMetadataStore`).

 The store caches, per connection index and database name, the schema list
 returned by the back end's "get database meta" endpoint. `dbMeta` is a
 two-level map: connection index -> database name -> entry. The entry is
 passed through without being interpreted, so its type is the parameter `E`.

 The HTTP collaborator is not modelled: each operation that may contact it
 receives the collaborator's answer as the parameter `answer`, and a ghost log
 records every request the store issues.
 */
module DbMetadata {

  datatype Option<T> = None | Some(value: T)

  /** The cache: connection index -> database name -> entry. */
  type Meta<E> = map<int, map<string, E>>

  /** The back end's endpoint for database metadata. */
  const GetDatabaseMetaUrl: string := "/get_database_meta/"

  /** The body posted to the endpoint. */
  datatype RequestBody = RequestBody(databaseIndex: int, workspaceId: string, databaseName: string)

  /** One request issued to the collaborator. */
  datatype Request = Request(url: string, body: RequestBody)

  /**
   The collaborator's response; `data.schemas` is what the store caches. The
   response and its `data` may carry other fields, which the store does not read:
   `rest` holds them, as a value of the opaque type `X`.
   */
  datatype Payload<E, X> = Payload(schemas: E, rest: X)
  datatype Response<E, X> = Response(data: Payload<E, X>, rest: X)

  /** What the collaborator answers: a response, or a rejection carrying its message. */
  datatype FetchResult<E, X> = Ok(response: Response<E, X>) | Err(message: string)

  /** What `fetchDbMeta` settles to: nothing, or the collaborator's rejection. */
  datatype Outcome = Pass | Fail(message: string)

  /** The request the store posts for a connection, workspace and database. */
  function RequestFor(conn: int, workspace: string, db: string): Request
  {
    Request(GetDatabaseMetaUrl, RequestBody(conn, workspace, db))
  }

  /** The entry cached for `(conn, db)`, if any; an unknown connection is simply absent. */
  function Lookup<E>(meta: Meta<E>, conn: int, db: string): Option<E>
  {
    if conn in meta && db in meta[conn] then Some(meta[conn][db]) else None
  }

  /**
   The cache after writing `entry` at `(conn, db)`, creating the inner map for
   `conn` when it is missing. Every other key keeps its entry (or its absence),
   and a connection seen for the first time holds only the new database.
   */
  function Stored<E>(meta: Meta<E>, conn: int, db: string, entry: E): (r: Meta<E>)
    ensures Lookup(r, conn, db) == Some(entry)
    ensures forall c, d :: (c, d) != (conn, db) ==> Lookup(r, c, d) == Lookup(meta, c, d)
    ensures r.Keys == meta.Keys + {conn}
    ensures conn in meta ==> r[conn].Keys == meta[conn].Keys + {db}
    ensures conn !in meta ==> r[conn] == map[db := entry]
  {
    var inner := if conn in meta then meta[conn] else map[];
    meta[conn := inner[db := entry]]
  }

  /** One call of the store's asynchronous operations, with the collaborator's answer. */
  datatype Call<E, X> =
    | Fetch(conn: int, workspace: string, db: string, answer: FetchResult<E, X>)
    | Refresh(conn: int, workspace: string, db: string, answer: FetchResult<E, X>)

  /** Whether `call` contacts the collaborator: a refresh always, a fetch only on a miss. */
  predicate Issues<E, X>(meta: Meta<E>, call: Call<E, X>)
  {
    call.Refresh? || Lookup(meta, call.conn, call.db).None?
  }

  /** The requests `call` issues, in order. */
  function Issued<E, X>(meta: Meta<E>, call: Call<E, X>): seq<Request>
  {
    if Issues(meta, call) then [RequestFor(call.conn, call.workspace, call.db)] else []
  }

  /** The cache after `call` has settled. */
  function Step<E, X>(meta: Meta<E>, call: Call<E, X>): Meta<E>
  {
    if Issues(meta, call) && call.answer.Ok? then
      Stored(meta, call.conn, call.db, call.answer.response.data.schemas)
    else
      meta
  }

  /** The store object. `dbMeta` is public: the application may also assign it. */
  class DbMetadataStore<E> {
    var initialized: string
    var dbMeta: Meta<E>
    /** Every request the store has posted to the collaborator, oldest first. */
    ghost var requests: seq<Request>

    /** A fresh store is empty, its `initialized` flag is the string "false" and it has posted nothing. */
    constructor ()
      ensures initialized == "false"
      ensures dbMeta == map[]
      ensures requests == []
    {
      initialized := "false";
      dbMeta := map[];
      requests := [];
    }

    /** `getDbMeta`: the cached entry, or absent when the connection or the database is unknown. */
    function GetDbMeta(conn: int, db: string): (r: Option<E>)
      reads this
      ensures r.Some? <==> conn in dbMeta && db in dbMeta[conn]
      ensures r.Some? ==> r.value == dbMeta[conn][db]
    {
      Lookup(dbMeta, conn, db)
    }

    /**
     `fetchDbMeta`: populate `(conn, db)` unless it is already cached. On a hit
     nothing is posted and nothing changes. On a miss exactly one request is
     posted; a response's `data.schemas` is stored at `(conn, db)` and a
     rejection is passed on with its message, the cache untouched.
     */
    method FetchDbMeta<X>(conn: int, workspace: string, db: string, answer: FetchResult<E, X>) returns (r: Outcome)
      modifies this
      ensures initialized == old(initialized)
      ensures old(GetDbMeta(conn, db)).Some? ==>
        r == Pass && dbMeta == old(dbMeta) && requests == old(requests)
      ensures old(GetDbMeta(conn, db)).None? ==>
        requests == old(requests) + [RequestFor(conn, workspace, db)]
      ensures old(GetDbMeta(conn, db)).None? && answer.Ok? ==>
        r == Pass && dbMeta == Stored(old(dbMeta), conn, db, answer.response.data.schemas)
      ensures old(GetDbMeta(conn, db)).None? && answer.Err? ==>
        r == Fail(answer.message) && dbMeta == old(dbMeta)
      ensures dbMeta == Step(old(dbMeta), Fetch(conn, workspace, db, answer))
      ensures requests == old(requests) + Issued(old(dbMeta), Fetch(conn, workspace, db, answer))
    {
      if GetDbMeta(conn, db).Some? {
        return Pass;
      }
      requests := requests + [RequestFor(conn, workspace, db)];
      match answer
      case Err(message) =>
        r := Fail(message);
      case Ok(response) =>
        var inner := if conn in dbMeta then dbMeta[conn] else map[];
        dbMeta := dbMeta[conn := inner[db := response.data.schemas]];
        r := Pass;
    }

    /**
     `refreshDBMeta`: always post the request, whatever is cached. A response's
     `data.schemas` replaces (or creates) the entry at `(conn, db)` and the whole
     response is returned; a rejection is passed on unchanged, the cache untouched.
     */
    method RefreshDBMeta<X>(conn: int, workspace: string, db: string, answer: FetchResult<E, X>) returns (r: FetchResult<E, X>)
      modifies this
      ensures initialized == old(initialized)
      ensures requests == old(requests) + [RequestFor(conn, workspace, db)]
      ensures r == answer
      ensures answer.Ok? ==> dbMeta == Stored(old(dbMeta), conn, db, answer.response.data.schemas)
      ensures answer.Err? ==> dbMeta == old(dbMeta)
      ensures dbMeta == Step(old(dbMeta), Refresh(conn, workspace, db, answer))
      ensures requests == old(requests) + Issued(old(dbMeta), Refresh(conn, workspace, db, answer))
    {
      requests := requests + [RequestFor(conn, workspace, db)];
      match answer
      case Err(message) =>
        r := Err(message);
      case Ok(response) =>
        var inner := if conn in dbMeta then dbMeta[conn] else map[];
        dbMeta := dbMeta[conn := inner[db := response.data.schemas]];
        r := Ok(response);
    }
  }
}
