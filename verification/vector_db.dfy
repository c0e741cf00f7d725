/**
 * The vector-store adapter of src/vector_db_search.py. The hosted collection
 * is seen through two things: the entries this adapter adds to it, and a
 * query oracle that answers a (text, n_results, tenant filter) query with
 * parallel lists of ids and documents. The text splitter and uuid4 are
 * parameters as well.
 */
module VectorStore {
  import opened Wrappers
  import Utils

  /** The shared corpus every tenant falls back to. */
  const DefaultTenant: string := "default"

  /** The metadata stored with each chunk. */
  datatype Metadata = Metadata(source: string, userId: string)

  /** The three aligned lists handed to `collection.add`. */
  datatype Batch = Batch(documents: seq<string>, metadatas: seq<Metadata>, ids: seq<string>)

  /** One stored chunk. */
  datatype Entry = Entry(id: string, document: string, metadata: Metadata)

  /** The id of a chunk: the tenant, a dash, then a uuid. */
  function ChunkId(userId: string, uuid: string): (id: string)
    ensures userId + "-" <= id
    ensures id[|userId| + 1..] == uuid
  {
    userId + "-" + uuid
  }

  /**
   * The lists `add_document` builds for the chunks the splitter produced;
   * `uuid4(i)` is the uuid drawn for the chunk at position `i`.
   */
  function PrepareBatch(chunks: seq<string>, filename: string, userId: string, uuid4: nat -> string): (b: Batch)
    ensures b.documents == chunks
    ensures |b.ids| == |b.metadatas| == |b.documents|
    ensures forall i :: 0 <= i < |b.ids| ==> userId + "-" <= b.ids[i] && b.ids[i][|userId| + 1..] == uuid4(i)
    ensures forall i :: 0 <= i < |b.metadatas| ==> b.metadatas[i] == Metadata(filename, userId)
  {
    var ids := seq(|chunks|, i requires 0 <= i < |chunks| => ChunkId(userId, uuid4(i)));
    assert forall i :: 0 <= i < |ids| ==> ids[i] == ChunkId(userId, uuid4(i));
    Batch(chunks, seq(|chunks|, _ => Metadata(filename, userId)), ids)
  }

  /** Different uuids give different ids, so a batch has no duplicate id when its uuids are distinct. */
  lemma BatchIdsDistinct(chunks: seq<string>, filename: string, userId: string, uuid4: nat -> string)
    requires forall i, j :: 0 <= i < j < |chunks| ==> uuid4(i) != uuid4(j)
    ensures var b := PrepareBatch(chunks, filename, userId, uuid4);
      forall i, j :: 0 <= i < j < |b.ids| ==> b.ids[i] != b.ids[j]
  {
    var b := PrepareBatch(chunks, filename, userId, uuid4);
    forall i, j | 0 <= i < j < |b.ids| ensures b.ids[i] != b.ids[j] {
      assert b.ids[i][|userId| + 1..] == uuid4(i);
      assert b.ids[j][|userId| + 1..] == uuid4(j);
    }
  }

  /** The entries a batch stands for. */
  function BatchEntries(b: Batch): (es: seq<Entry>)
    requires |b.ids| == |b.metadatas| == |b.documents|
    ensures |es| == |b.ids|
    ensures forall i :: 0 <= i < |es| ==> es[i] == Entry(b.ids[i], b.documents[i], b.metadatas[i])
  {
    seq(|b.ids|, i requires 0 <= i < |b.ids| => Entry(b.ids[i], b.documents[i], b.metadatas[i]))
  }

  /** One query to the collection: the query text, `n_results` and the tenant filter. */
  datatype Query = Query(text: string, nResults: int, userId: string)

  /** The answer to one query: the first (only) row of `ids` and of `documents`. */
  datatype QueryResult = QueryResult(ids: seq<string>, documents: seq<string>)

  /** Python's `zip`: pairs up to the shorter list. */
  function Zip(xs: seq<string>, ys: seq<string>): (r: seq<(string, string)>)
    ensures |r| == if |xs| <= |ys| then |xs| else |ys|
    ensures forall i :: 0 <= i < |r| ==> r[i] == (xs[i], ys[i])
    decreases |xs|
  {
    if xs == [] || ys == [] then [] else [(xs[0], ys[0])] + Zip(xs[1..], ys[1..])
  }

  /** The pairs a search returns, and the queries it issued. */
  datatype SearchRun = SearchRun(hits: seq<(string, string)>, queries: seq<Query>)

  /** The hits for one answer: none when it has no documents, otherwise ids paired with documents. */
  function HitsOf(r: QueryResult): (hits: seq<(string, string)>)
    ensures r.documents == [] ==> hits == []
    ensures r.documents != [] ==> |hits| == if |r.ids| <= |r.documents| then |r.ids| else |r.documents|
    ensures forall i :: 0 <= i < |hits| ==> hits[i] == (r.ids[i], r.documents[i])
  {
    if r.documents == [] then [] else Zip(r.ids, r.documents)
  }

  /**
   * `search`: query the tenant; if that finds no document and the tenant is
   * not the shared one, query the shared corpus once instead.
   */
  function Search(query: string, userId: string, topK: int, store: Query -> QueryResult): (run: SearchRun)
    ensures 1 <= |run.queries| <= 2
    ensures run.queries[0] == Query(query, topK, userId)
    ensures |run.queries| == 2 <==> store(run.queries[0]).documents == [] && userId != DefaultTenant
    ensures |run.queries| == 2 ==> run.queries[1] == Query(query, topK, DefaultTenant)
    ensures run.hits == HitsOf(store(run.queries[|run.queries| - 1]))
  {
    var first := Query(query, topK, userId);
    var r1 := store(first);
    if r1.documents == [] && userId != DefaultTenant then
      var second := Query(query, topK, DefaultTenant);
      SearchRun(HitsOf(store(second)), [first, second])
    else
      SearchRun(HitsOf(r1), [first])
  }

  /** Searching as the shared tenant issues exactly one query. */
  lemma DefaultTenantNoFallback(query: string, topK: int, store: Query -> QueryResult)
    ensures Search(query, DefaultTenant, topK, store).queries == [Query(query, topK, DefaultTenant)]
  {
  }

  /** When the tenant's own query finds documents, the result is exactly that query's pairs. */
  lemma TenantHitsNoFallback(query: string, userId: string, topK: int, store: Query -> QueryResult)
    requires store(Query(query, topK, userId)).documents != []
    ensures var r := store(Query(query, topK, userId));
      Search(query, userId, topK, store) == SearchRun(Zip(r.ids, r.documents), [Query(query, topK, userId)])
  {
  }

  /** The number of hits, and the `top_k` bound when the store returns at most `n_results` documents. */
  lemma HitsBounded(query: string, userId: string, topK: int, store: Query -> QueryResult)
    ensures var run := Search(query, userId, topK, store);
      var last := store(run.queries[|run.queries| - 1]);
      && (last.documents == [] ==> run.hits == [])
      && (last.documents != [] ==> |run.hits| == if |last.ids| <= |last.documents| then |last.ids| else |last.documents|)
      && (|last.documents| <= topK ==> |run.hits| <= topK)
  {
  }

  /** The store answers every query only with entries of the filtered tenant. */
  ghost predicate StoreFiltersByTenant(store: Query -> QueryResult, entries: seq<Entry>)
  {
    forall q: Query, i :: 0 <= i < |store(q).ids| && i < |store(q).documents| ==>
      exists e :: e in entries && e.id == store(q).ids[i] && e.document == store(q).documents[i] && e.metadata.userId == q.userId
  }

  /**
   * Tenant isolation: with a store that honours the filter, every hit is a
   * stored chunk of the searching tenant when its own query found anything,
   * and of the shared corpus otherwise.
   */
  lemma SearchTenantIsolation(query: string, userId: string, topK: int, store: Query -> QueryResult, entries: seq<Entry>)
    requires StoreFiltersByTenant(store, entries)
    ensures var run := Search(query, userId, topK, store);
      var tenant := if store(Query(query, topK, userId)).documents != [] then userId else DefaultTenant;
      forall h :: h in run.hits ==>
        exists e :: e in entries && (e.id, e.document) == h && e.metadata.userId == tenant
  {
    var run := Search(query, userId, topK, store);
    var q := run.queries[|run.queries| - 1];
    var tenant := if store(Query(query, topK, userId)).documents != [] then userId else DefaultTenant;
    assert q.userId == tenant;
    forall h | h in run.hits
      ensures exists e :: e in entries && (e.id, e.document) == h && e.metadata.userId == tenant
    {
      var r := store(q);
      var i :| 0 <= i < |run.hits| && run.hits[i] == h;
      assert h == (r.ids[i], r.documents[i]);
      var e :| e in entries && e.id == r.ids[i] && e.document == r.documents[i] && e.metadata.userId == q.userId;
      assert (e.id, e.document) == h;
    }
  }

  /** The adapter; `entries` are the chunks it has added to the collection. */
  class VectorDB {
    var entries: seq<Entry>

    /** An adapter over a collection that already holds `existing`. */
    constructor (existing: seq<Entry>)
      ensures entries == existing
    {
      entries := existing;
    }

    /**
     * `add_document`: splits the text with the splitter configured by the
     * chunking constants, tags every chunk with the tenant and the file name,
     * and adds them all in one batch, in order.
     */
    method AddDocument(text: string, filename: string, userId: string,
                       split: (string, nat, nat) -> seq<string>, uuid4: nat -> string)
      modifies this
      ensures var b := PrepareBatch(split(text, Utils.ChunkSize, Utils.ChunkOverlap), filename, userId, uuid4);
        entries == old(entries) + BatchEntries(b)
    {
      var chunks := split(text, Utils.ChunkSize, Utils.ChunkOverlap);
      var b := PrepareBatch(chunks, filename, userId, uuid4);
      entries := entries + BatchEntries(b);
    }
  }

  /** Every chunk an `add_document` call stores belongs to its tenant and file, under an id prefixed by the tenant. */
  lemma AddedEntriesTagged(chunks: seq<string>, filename: string, userId: string, uuid4: nat -> string)
    ensures var es := BatchEntries(PrepareBatch(chunks, filename, userId, uuid4));
      && |es| == |chunks|
      && forall i :: 0 <= i < |es| ==>
           && es[i].document == chunks[i]
           && es[i].metadata == Metadata(filename, userId)
           && userId + "-" <= es[i].id
  {
  }
}
