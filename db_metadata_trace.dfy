/**
 Properties of the store over a whole sequence of calls. `Run` is the cache
 after the calls settle one after the other (each call is one atomic step, as
 the methods of `DbMetadataStore` are), and `Log` is the requests they post.
 */
module DbMetadataTrace {
  import opened DbMetadata

  /** The cache after `calls`, applied in order, starting from `meta`. */
  function Run<E, X>(meta: Meta<E>, calls: seq<Call<E, X>>): Meta<E>
    decreases |calls|
  {
    if calls == [] then meta else Run(Step(meta, calls[0]), calls[1..])
  }

  /** The requests `calls` post, in order, starting from `meta`. */
  function Log<E, X>(meta: Meta<E>, calls: seq<Call<E, X>>): seq<Request>
    decreases |calls|
  {
    if calls == [] then [] else Issued(meta, calls[0]) + Log(Step(meta, calls[0]), calls[1..])
  }

  /** `call` is addressed to `(conn, db)`. */
  predicate Targets<E, X>(call: Call<E, X>, conn: int, db: string)
  {
    call.conn == conn && call.db == db
  }

  /** `call` is addressed to `(conn, db)` and the collaborator answers it with a response. */
  predicate Succeeds<E, X>(call: Call<E, X>, conn: int, db: string)
  {
    Targets(call, conn, db) && call.answer.Ok?
  }

  /** The calls addressed to `(conn, db)`, in order. */
  function OnKey<E, X>(calls: seq<Call<E, X>>, conn: int, db: string): (r: seq<Call<E, X>>)
    ensures forall i :: 0 <= i < |r| ==> Targets(r[i], conn, db)
    ensures |r| <= |calls|
  {
    if calls == [] then []
    else if Targets(calls[0], conn, db) then [calls[0]] + OnKey(calls[1..], conn, db)
    else OnKey(calls[1..], conn, db)
  }

  /** The request each call of `calls` would post. */
  function Requests<E, X>(calls: seq<Call<E, X>>): (r: seq<Request>)
    ensures |r| == |calls|
    ensures forall i :: 0 <= i < |calls| ==> r[i] == RequestFor(calls[i].conn, calls[i].workspace, calls[i].db)
  {
    if calls == [] then [] else [RequestFor(calls[0].conn, calls[0].workspace, calls[0].db)] + Requests(calls[1..])
  }

  /**
   No eviction, and an entry only comes from the collaborator: after any calls,
   `(conn, db)` is cached exactly when it was cached before or some call to it
   was answered with a response.
   */
  lemma {:induction false} Provenance<E, X>(meta: Meta<E>, calls: seq<Call<E, X>>, conn: int, db: string)
    ensures Lookup(Run(meta, calls), conn, db).Some? <==>
      Lookup(meta, conn, db).Some? || exists i :: 0 <= i < |calls| && Succeeds(calls[i], conn, db)
    decreases |calls|
  {
    if calls != [] {
      var next := Step(meta, calls[0]);
      Provenance(next, calls[1..], conn, db);
      assert Lookup(next, conn, db).Some? <==> Lookup(meta, conn, db).Some? || Succeeds(calls[0], conn, db);
      if exists i :: 0 <= i < |calls| && Succeeds(calls[i], conn, db) {
        var i :| 0 <= i < |calls| && Succeeds(calls[i], conn, db);
        if i > 0 {
          assert Succeeds(calls[1..][i - 1], conn, db);
        }
      }
      if exists j :: 0 <= j < |calls[1..]| && Succeeds(calls[1..][j], conn, db) {
        var j :| 0 <= j < |calls[1..]| && Succeeds(calls[1..][j], conn, db);
        assert Succeeds(calls[j + 1], conn, db);
      }
    }
  }

  /** A call changes the entry at `(conn, db)` only as a function of that entry. */
  lemma StepAt<E, X>(meta1: Meta<E>, meta2: Meta<E>, call: Call<E, X>, conn: int, db: string)
    requires Lookup(meta1, conn, db) == Lookup(meta2, conn, db)
    ensures Lookup(Step(meta1, call), conn, db) == Lookup(Step(meta2, call), conn, db)
  {
  }

  /** Generalisation of `PerKeyIsolation` to two caches that agree at `(conn, db)`. */
  lemma {:induction false} IsolationFrom<E, X>(meta1: Meta<E>, meta2: Meta<E>, calls: seq<Call<E, X>>, conn: int, db: string)
    requires Lookup(meta1, conn, db) == Lookup(meta2, conn, db)
    ensures Lookup(Run(meta1, calls), conn, db) == Lookup(Run(meta2, OnKey(calls, conn, db)), conn, db)
    decreases |calls|
  {
    if calls != [] {
      StepAt(meta1, meta2, calls[0], conn, db);
      if Targets(calls[0], conn, db) {
        IsolationFrom(Step(meta1, calls[0]), Step(meta2, calls[0]), calls[1..], conn, db);
        assert OnKey(calls, conn, db) == [calls[0]] + OnKey(calls[1..], conn, db);
        assert ([calls[0]] + OnKey(calls[1..], conn, db))[1..] == OnKey(calls[1..], conn, db);
      } else {
        assert Lookup(Step(meta1, calls[0]), conn, db) == Lookup(meta1, conn, db);
        IsolationFrom(Step(meta1, calls[0]), meta2, calls[1..], conn, db);
      }
    }
  }

  /**
   Per-key isolation: the entry at `(conn, db)` after any calls is the one the
   calls addressed to `(conn, db)` alone would leave.
   */
  lemma PerKeyIsolation<E, X>(meta: Meta<E>, calls: seq<Call<E, X>>, conn: int, db: string)
    ensures Lookup(Run(meta, calls), conn, db) == Lookup(Run(meta, OnKey(calls, conn, db)), conn, db)
  {
    IsolationFrom(meta, meta, calls, conn, db);
  }

  /** Once `(conn, db)` is cached, any number of fetches of it post nothing and change nothing. */
  lemma {:induction false} CachedFetchesAreNoOps<E, X>(meta: Meta<E>, calls: seq<Call<E, X>>, conn: int, db: string)
    requires Lookup(meta, conn, db).Some?
    requires forall i :: 0 <= i < |calls| ==> calls[i].Fetch? && Targets(calls[i], conn, db)
    ensures Run(meta, calls) == meta
    ensures Log(meta, calls) == []
  {
    if calls != [] {
      assert calls[0].Fetch? && Targets(calls[0], conn, db);
      assert Step(meta, calls[0]) == meta;
      CachedFetchesAreNoOps(meta, calls[1..], conn, db);
    }
  }

  /**
   Repeated fetches of a cold key: the first, answered with a response, posts
   the one request and stores its schemas; every later fetch posts nothing.
   */
  lemma FetchPostsOnce<E, X>(meta: Meta<E>, first: Call<E, X>, later: seq<Call<E, X>>)
    requires first.Fetch? && first.answer.Ok?
    requires Lookup(meta, first.conn, first.db).None?
    requires forall i :: 0 <= i < |later| ==> later[i].Fetch? && Targets(later[i], first.conn, first.db)
    ensures Run(meta, [first] + later) == Stored(meta, first.conn, first.db, first.answer.response.data.schemas)
    ensures Log(meta, [first] + later) == [RequestFor(first.conn, first.workspace, first.db)]
  {
    var calls := [first] + later;
    assert calls[0] == first && calls[1..] == later;
    CachedFetchesAreNoOps(Step(meta, first), later, first.conn, first.db);
  }

  /** Refreshes never consult the cache: each posts its own request, whatever is cached. */
  lemma {:induction false} RefreshesAlwaysPost<E, X>(meta: Meta<E>, calls: seq<Call<E, X>>)
    requires forall i :: 0 <= i < |calls| ==> calls[i].Refresh?
    ensures Log(meta, calls) == Requests(calls)
    decreases |calls|
  {
    if calls != [] {
      assert calls[0].Refresh?;
      RefreshesAlwaysPost(Step(meta, calls[0]), calls[1..]);
    }
  }

  /** Every call posts at most one request. */
  lemma {:induction false} LogBound<E, X>(meta: Meta<E>, calls: seq<Call<E, X>>)
    ensures |Log(meta, calls)| <= |calls|
    decreases |calls|
  {
    if calls != [] {
      LogBound(Step(meta, calls[0]), calls[1..]);
    }
  }

  /** A rejected call changes nothing, wherever it is in a sequence of calls. */
  lemma RejectedCallChangesNothing<E, X>(meta: Meta<E>, before: seq<Call<E, X>>, call: Call<E, X>, after: seq<Call<E, X>>)
    requires call.answer.Err?
    ensures Run(meta, before + [call] + after) == Run(meta, before + after)
  {
    RunAppend(meta, before, [call] + after);
    assert before + [call] + after == before + ([call] + after);
    assert ([call] + after)[1..] == after;
    RunAppend(meta, before, after);
  }

  /** Running two sequences of calls one after the other. */
  lemma {:induction false} RunAppend<E, X>(meta: Meta<E>, first: seq<Call<E, X>>, second: seq<Call<E, X>>)
    ensures Run(meta, first + second) == Run(Run(meta, first), second)
    decreases |first|
  {
    if first == [] {
      assert first + second == second;
    } else {
      assert (first + second)[0] == first[0];
      assert (first + second)[1..] == first[1..] + second;
      RunAppend(Step(meta, first[0]), first[1..], second);
    }
  }
}
