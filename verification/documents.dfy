/** The JSON shapes the client writes and reads, as already-decoded values.
    JSON encoding and decoding themselves belong to Go's `encoding/json` and are
    passed to the operations as functions. The `_score`/`max_score` fields are
    dynamically typed and are not represented. */
module Documents {

  /** The `_shards` statistics object; decoded, never used. */
  datatype Shards = Shards(failed: int, skipped: int, successful: int, total: int)

  /** The `_source` object of a hit. */
  datatype Source = Source(bookId: int, bookName: string, description: string)

  /** One entry of `hits.hits`. Note that the client binds `id` to the JSON key
      "id", not to the engine's "_id" envelope key. */
  datatype Hit = Hit(id: string, index: string, kind: string, source: Source)

  datatype Hits = Hits(total: int, hits: seq<Hit>)

  /** Body of a `_search` response. */
  datatype SearchResponse = SearchResponse(timedOut: bool, took: int, shards: Shards, hits: Hits)

  /** Body of a `_count` response. */
  datatype CountResponse = CountResponse(shards: Shards, count: int)

  /** A book record written to the index by BuildIndex. */
  datatype IndexedDocument = IndexedDocument(id: int, bookName: string, description: string)

  /** The identifiers of the hits, in the engine's order: the loop that
      appends `v.ID` for every entry of `obj.Hits.Hits`. */
  function HitIds(hits: seq<Hit>): (ids: seq<string>)
    ensures |ids| == |hits|
    ensures forall i :: 0 <= i < |hits| ==> ids[i] == hits[i].id
    decreases |hits|
  {
    if |hits| == 0 then []
    else HitIds(hits[..|hits| - 1]) + [hits[|hits| - 1].id]
  }
}
