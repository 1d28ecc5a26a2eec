/**
 * The query record tracked by the client-side queue and the partial update
 * applied to it. The record's shape follows its uses in
 * nextjs_frontend/components/QueryCard.tsx and QueryResults.tsx, since the
 * type itself is not part of this model's sources.
 */
module QueryRecords {
  import opened Wrappers
  import opened Documents

  /** A JavaScript `Date`, represented by its millisecond time value. */
  type Timestamp = int

  datatype QueryStatus = Waiting | Processing | Completed | Error

  datatype QueryItem = QueryItem(
    id: string,
    query: string,
    status: QueryStatus,
    documents: Option<seq<DocumentUpdate>>,
    error: Option<string>,
    createdAt: Timestamp,
    completedAt: Option<Timestamp>,
    retryCount: int)

  /**
   * `Partial<QueryItem>`. `None` means the key is absent from the update
   * object. For the optional fields `Some(None)` is a key that is present with
   * the value `undefined`: the object spread copies it and so clears the field.
   */
  datatype QueryPatch = QueryPatch(
    id: Option<string>,
    query: Option<string>,
    status: Option<QueryStatus>,
    documents: Option<Option<seq<DocumentUpdate>>>,
    error: Option<Option<string>>,
    createdAt: Option<Timestamp>,
    completedAt: Option<Option<Timestamp>>,
    retryCount: Option<int>)

  /** `{}`: the update that names no field. */
  const NoChange := QueryPatch(None, None, None, None, None, None, None, None)

  function Pick<T>(update: Option<T>, current: T): T
  {
    if update.Some? then update.value else current
  }

  /** `{ ...q, ...updates }`: every key present in the update overwrites, the others are kept. */
  function Merge(q: QueryItem, u: QueryPatch): (r: QueryItem)
    ensures u.id.Some? ==> r.id == u.id.value
    ensures u.id.None? ==> r.id == q.id
    ensures u.query.Some? ==> r.query == u.query.value
    ensures u.query.None? ==> r.query == q.query
    ensures u.status.Some? ==> r.status == u.status.value
    ensures u.status.None? ==> r.status == q.status
    ensures u.documents.Some? ==> r.documents == u.documents.value
    ensures u.documents.None? ==> r.documents == q.documents
    ensures u.error.Some? ==> r.error == u.error.value
    ensures u.error.None? ==> r.error == q.error
    ensures u.createdAt.Some? ==> r.createdAt == u.createdAt.value
    ensures u.createdAt.None? ==> r.createdAt == q.createdAt
    ensures u.completedAt.Some? ==> r.completedAt == u.completedAt.value
    ensures u.completedAt.None? ==> r.completedAt == q.completedAt
    ensures u.retryCount.Some? ==> r.retryCount == u.retryCount.value
    ensures u.retryCount.None? ==> r.retryCount == q.retryCount
  {
    QueryItem(
      Pick(u.id, q.id),
      Pick(u.query, q.query),
      Pick(u.status, q.status),
      Pick(u.documents, q.documents),
      Pick(u.error, q.error),
      Pick(u.createdAt, q.createdAt),
      Pick(u.completedAt, q.completedAt),
      Pick(u.retryCount, q.retryCount))
  }

  /** `{ ...u1, ...u2 }`: the later update wins on every key both name. */
  function Then(u1: QueryPatch, u2: QueryPatch): QueryPatch
  {
    QueryPatch(
      if u2.id.Some? then u2.id else u1.id,
      if u2.query.Some? then u2.query else u1.query,
      if u2.status.Some? then u2.status else u1.status,
      if u2.documents.Some? then u2.documents else u1.documents,
      if u2.error.Some? then u2.error else u1.error,
      if u2.createdAt.Some? then u2.createdAt else u1.createdAt,
      if u2.completedAt.Some? then u2.completedAt else u1.completedAt,
      if u2.retryCount.Some? then u2.retryCount else u1.retryCount)
  }

  /** An empty update changes nothing. */
  lemma MergeNoChange(q: QueryItem)
    ensures Merge(q, NoChange) == q
  {
  }

  /** Applying the same update twice is applying it once. */
  lemma MergeIdempotent(q: QueryItem, u: QueryPatch)
    ensures Merge(Merge(q, u), u) == Merge(q, u)
  {
  }

  /** Two successive updates act as one update in which the later wins (last write wins). */
  lemma MergeLastWriteWins(q: QueryItem, u1: QueryPatch, u2: QueryPatch)
    ensures Merge(Merge(q, u1), u2) == Merge(q, Then(u1, u2))
  {
  }
}
