/**
 * The queue's persistence step (the two effects of
 * nextjs_frontend/contexts/QueryQueueContext.tsx). The whole list is written
 * as one JSON value under the key "queryQueue"; on load the two date fields
 * are rebuilt from their string form. `localStorage` is a map from keys to
 * strings, and `JSON.stringify`/`JSON.parse` and the `Date` string conversion
 * are codecs passed in as values.
 */
module QueryPersistence {
  import opened Wrappers
  import opened Documents
  import opened QueryRecords

  const StorageKey: string := "queryQueue"

  /** `localStorage`: string keys to string values. */
  type Storage = map<string, string>

  /** A record as JSON holds it: every `Date` has become a string. */
  datatype StoredQuery = StoredQuery(
    id: string,
    query: string,
    status: QueryStatus,
    documents: Option<seq<DocumentUpdate>>,
    error: Option<string>,
    createdAt: string,
    completedAt: Option<string>,
    retryCount: int)

  /** `Date.prototype.toJSON` and `new Date(string)`. */
  datatype DateCodec = DateCodec(format: Timestamp -> string, parse: string -> Timestamp)

  /**
   * `JSON.stringify` of the list and `JSON.parse` followed by the array
   * access; `None` is any failure (a syntax error, or a value that is not a
   * list of records, on which `.map` throws).
   */
  datatype JsonCodec = JsonCodec(stringify: seq<StoredQuery> -> string, parse: string -> Option<seq<StoredQuery>>)

  /** Parsing a formatted date gives it back, and the formatted form is never the empty string. */
  ghost predicate FaithfulDates(dates: DateCodec)
  {
    forall t :: dates.parse(dates.format(t)) == t && dates.format(t) != ""
  }

  /** Parsing a written list gives it back, and the written text is never empty. */
  ghost predicate FaithfulJson(json: JsonCodec)
  {
    forall qs :: json.parse(json.stringify(qs)) == Some(qs) && json.stringify(qs) != ""
  }

  /** What `JSON.stringify` makes of one record. */
  function Encode(q: QueryItem, dates: DateCodec): (r: StoredQuery)
    ensures r.createdAt == dates.format(q.createdAt)
    ensures r.completedAt.Some? <==> q.completedAt.Some?
    ensures r.completedAt.Some? ==> r.completedAt.value == dates.format(q.completedAt.value)
    ensures r.id == q.id && r.query == q.query && r.status == q.status && r.documents == q.documents
    ensures r.error == q.error && r.retryCount == q.retryCount
  {
    StoredQuery(q.id, q.query, q.status, q.documents, q.error,
                dates.format(q.createdAt),
                if q.completedAt.Some? then Some(dates.format(q.completedAt.value)) else None,
                q.retryCount)
  }

  /**
   * The per-record step of the load effect:
   * `{ ...q, createdAt: new Date(q.createdAt), completedAt: q.completedAt ? new Date(q.completedAt) : undefined }`.
   * The empty string is falsy, so it yields no completion time.
   */
  function Decode(s: StoredQuery, dates: DateCodec): (r: QueryItem)
    ensures r.createdAt == dates.parse(s.createdAt)
    ensures r.completedAt.Some? <==> s.completedAt.Some? && s.completedAt.value != ""
    ensures r.completedAt.Some? ==> r.completedAt.value == dates.parse(s.completedAt.value)
    ensures r.id == s.id && r.query == s.query && r.status == s.status && r.documents == s.documents
    ensures r.error == s.error && r.retryCount == s.retryCount
  {
    QueryItem(s.id, s.query, s.status, s.documents, s.error,
              dates.parse(s.createdAt),
              if s.completedAt.Some? && s.completedAt.value != "" then Some(dates.parse(s.completedAt.value)) else None,
              s.retryCount)
  }

  function EncodeAll(qs: seq<QueryItem>, dates: DateCodec): (r: seq<StoredQuery>)
    ensures |r| == |qs|
    ensures forall i :: 0 <= i < |qs| ==> r[i] == Encode(qs[i], dates)
  {
    seq(|qs|, i requires 0 <= i < |qs| => Encode(qs[i], dates))
  }

  function DecodeAll(ss: seq<StoredQuery>, dates: DateCodec): (r: seq<QueryItem>)
    ensures |r| == |ss|
    ensures forall i :: 0 <= i < |ss| ==> r[i] == Decode(ss[i], dates)
  {
    seq(|ss|, i requires 0 <= i < |ss| => Decode(ss[i], dates))
  }

  /** The save effect: `localStorage.setItem('queryQueue', JSON.stringify(queries))`. */
  function Save(queries: seq<QueryItem>, storage: Storage, dates: DateCodec, json: JsonCodec): (r: Storage)
    ensures StorageKey in r && r[StorageKey] == json.stringify(EncodeAll(queries, dates))
    ensures r.Keys == storage.Keys + {StorageKey}
    ensures forall k :: k in storage && k != StorageKey ==> r[k] == storage[k]
  {
    storage[StorageKey := json.stringify(EncodeAll(queries, dates))]
  }

  /**
   * The load effect. A missing key or an empty value leaves the queue empty
   * (`if (savedQueries)`); so does a failed parse, whose error is caught.
   */
  function Load(storage: Storage, dates: DateCodec, json: JsonCodec): (r: seq<QueryItem>)
    ensures StorageKey !in storage ==> r == []
    ensures StorageKey in storage && storage[StorageKey] == "" ==> r == []
    ensures StorageKey in storage && json.parse(storage[StorageKey]).None? ==> r == []
    ensures StorageKey in storage && storage[StorageKey] != "" && json.parse(storage[StorageKey]).Some? ==>
              r == DecodeAll(json.parse(storage[StorageKey]).value, dates)
  {
    if StorageKey !in storage || storage[StorageKey] == "" then []
    else
      match json.parse(storage[StorageKey])
      case None => []
      case Some(stored) => DecodeAll(stored, dates)
  }

  /** Writing a record and reading it back gives the same record. */
  lemma DecodeEncode(q: QueryItem, dates: DateCodec)
    requires FaithfulDates(dates)
    ensures Decode(Encode(q, dates), dates) == q
  {
    assert dates.parse(dates.format(q.createdAt)) == q.createdAt;
    if q.completedAt.Some? {
      assert dates.parse(dates.format(q.completedAt.value)) == q.completedAt.value;
      assert dates.format(q.completedAt.value) != "";
    }
  }

  /** Saving the queue and loading it again gives back every record, field for field, in order. */
  lemma SaveThenLoad(queries: seq<QueryItem>, storage: Storage, dates: DateCodec, json: JsonCodec)
    requires FaithfulDates(dates) && FaithfulJson(json)
    ensures Load(Save(queries, storage, dates, json), dates, json) == queries
  {
    var stored := EncodeAll(queries, dates);
    assert json.parse(json.stringify(stored)) == Some(stored);
    assert json.stringify(stored) != "";
    var loaded := Load(Save(queries, storage, dates, json), dates, json);
    assert loaded == DecodeAll(stored, dates);
    forall i | 0 <= i < |queries|
      ensures loaded[i] == queries[i]
    {
      DecodeEncode(queries[i], dates);
    }
  }
}
