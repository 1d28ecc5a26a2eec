/**
 * The query queue store (nextjs_frontend/contexts/QueryQueueContext.tsx): an
 * insertion-ordered list of query records, replaced by each operation and
 * written to storage after every change. The list transforms are pure
 * functions; the provider is the class `QueryQueueStore`.
 */
module QueryQueue {
  import opened Wrappers
  import opened Sequences
  import opened QueryRecords
  import opened QueryPersistence

  predicate HasId(qs: seq<QueryItem>, queryId: string)
  {
    exists i :: 0 <= i < |qs| && qs[i].id == queryId
  }

  /** The new list computed by `updateQuery`: `prev.map(q => q.id === queryId ? { ...q, ...updates } : q)`. */
  function UpdatedWhere(qs: seq<QueryItem>, queryId: string, updates: QueryPatch): (r: seq<QueryItem>)
    ensures |r| == |qs|
    ensures forall i :: 0 <= i < |qs| && qs[i].id == queryId ==> r[i] == Merge(qs[i], updates)
    ensures forall i :: 0 <= i < |qs| && qs[i].id != queryId ==> r[i] == qs[i]
    ensures !HasId(qs, queryId) ==> r == qs
    decreases |qs|
  {
    if qs == [] then []
    else [if qs[0].id == queryId then Merge(qs[0], updates) else qs[0]] + UpdatedWhere(qs[1..], queryId, updates)
  }

  /** The new list computed by `removeQuery`: `prev.filter(q => q.id !== queryId)`. */
  function RemovedWhere(qs: seq<QueryItem>, queryId: string): (r: seq<QueryItem>)
    ensures forall q :: q in r <==> q in qs && q.id != queryId
    ensures !HasId(r, queryId)
    ensures IsSubsequence(r, qs)
    ensures !HasId(qs, queryId) ==> r == qs
    decreases |qs|
  {
    if qs == [] then []
    else if qs[0].id != queryId then [qs[0]] + RemovedWhere(qs[1..], queryId)
    else RemovedWhere(qs[1..], queryId)
  }

  /** Removal drops every copy of a record with that id and keeps every other record as often as it occurred. */
  lemma {:induction false} RemovedWhereCounts(qs: seq<QueryItem>, queryId: string)
    ensures forall q :: multiset(RemovedWhere(qs, queryId))[q] == if q.id != queryId then multiset(qs)[q] else 0
    decreases |qs|
  {
    if qs != [] {
      RemovedWhereCounts(qs[1..], queryId);
      assert qs == [qs[0]] + qs[1..];
      forall q ensures multiset(RemovedWhere(qs, queryId))[q] == if q.id != queryId then multiset(qs)[q] else 0 {
        CountCons(qs[0], qs[1..], q);
        if qs[0].id != queryId {
          CountCons(qs[0], RemovedWhere(qs[1..], queryId), q);
        }
      }
    }
  }

  /** `queries.find(q => q.id === queryId)`: the first record with that id, if any. */
  function FindById(qs: seq<QueryItem>, queryId: string): (r: Option<QueryItem>)
    ensures r.None? <==> !HasId(qs, queryId)
    ensures r.Some? ==> exists i :: 0 <= i < |qs| && qs[i] == r.value && r.value.id == queryId &&
                                    forall j :: 0 <= j < i ==> qs[j].id != queryId
    decreases |qs|
  {
    if qs == [] then None
    else if qs[0].id == queryId then Some(qs[0])
    else
      var r := FindById(qs[1..], queryId);
      if r.Some? then
        ghost var i :| 0 <= i < |qs[1..]| && qs[1..][i] == r.value && r.value.id == queryId &&
                       forall j :: 0 <= j < i ==> qs[1..][j].id != queryId;
        assert qs[i + 1] == r.value;
        r
      else
        assert forall i :: 0 < i < |qs| ==> qs[i] == qs[1..][i - 1];
        r
  }

  /** Removing an id twice is removing it once. */
  lemma RemoveIsIdempotent(qs: seq<QueryItem>, queryId: string)
    ensures RemovedWhere(RemovedWhere(qs, queryId), queryId) == RemovedWhere(qs, queryId)
  {
  }

  /** After removal the id is not found. */
  lemma FindAfterRemove(qs: seq<QueryItem>, queryId: string)
    ensures FindById(RemovedWhere(qs, queryId), queryId) == None
  {
  }

  /**
   * Appending does not check for duplicates: an earlier record with the same
   * id keeps being the one found, and the new record is found only when no
   * earlier one has its id.
   */
  lemma {:induction false} FindAfterAppend(qs: seq<QueryItem>, query: QueryItem, queryId: string)
    ensures FindById(qs + [query], queryId) ==
              if HasId(qs, queryId) then FindById(qs, queryId)
              else if query.id == queryId then Some(query) else None
    decreases |qs|
  {
    if qs != [] {
      assert (qs + [query])[1..] == qs[1..] + [query];
      FindAfterAppend(qs[1..], query, queryId);
      if qs[0].id != queryId {
        assert HasId(qs, queryId) <==> HasId(qs[1..], queryId) by {
          if HasId(qs, queryId) {
            var i :| 0 <= i < |qs| && qs[i].id == queryId;
            assert qs[1..][i - 1].id == queryId;
          }
          if HasId(qs[1..], queryId) {
            var i :| 0 <= i < |qs[1..]| && qs[1..][i].id == queryId;
            assert qs[i + 1].id == queryId;
          }
        }
      }
    }
  }

  /** Updating by id: the record then found is the first match with the update merged in. */
  lemma {:induction false} FindAfterUpdate(qs: seq<QueryItem>, queryId: string, updates: QueryPatch)
    requires HasId(qs, queryId)
    requires updates.id == None
    ensures FindById(UpdatedWhere(qs, queryId, updates), queryId) == Some(Merge(FindById(qs, queryId).value, updates))
    decreases |qs|
  {
    if qs[0].id != queryId {
      var i :| 0 <= i < |qs| && qs[i].id == queryId;
      assert qs[1..][i - 1].id == queryId;
      FindAfterUpdate(qs[1..], queryId, updates);
      assert UpdatedWhere(qs, queryId, updates)[1..] == UpdatedWhere(qs[1..], queryId, updates);
    }
  }

  /**
   * An update that arrives after its record was removed changes nothing: the
   * removed record does not come back.
   */
  lemma UpdateAfterRemove(qs: seq<QueryItem>, queryId: string, updates: QueryPatch)
    ensures UpdatedWhere(RemovedWhere(qs, queryId), queryId, updates) == RemovedWhere(qs, queryId)
  {
  }

  /**
   * Two updates of the same id in a row act as one update in which the later
   * wins, provided the first does not move the records to another id.
   */
  lemma {:induction false} UpdateTwice(qs: seq<QueryItem>, queryId: string, u1: QueryPatch, u2: QueryPatch)
    requires u1.id.None? || u1.id == Some(queryId)
    ensures UpdatedWhere(UpdatedWhere(qs, queryId, u1), queryId, u2) == UpdatedWhere(qs, queryId, Then(u1, u2))
    decreases |qs|
  {
    if qs != [] {
      UpdateTwice(qs[1..], queryId, u1, u2);
      if qs[0].id == queryId {
        MergeLastWriteWins(qs[0], u1, u2);
      }
      assert UpdatedWhere(qs, queryId, u1)[1..] == UpdatedWhere(qs[1..], queryId, u1);
    }
  }

  /**
   * The provider: the state `queries` and the browser's storage, which the
   * save effect overwrites after every change. `dates` and `json` stand for the
   * `Date` conversions and the JSON functions.
   */
  class QueryQueueStore {
    var queries: seq<QueryItem>
    var storage: Storage
    const dates: DateCodec
    const json: JsonCodec

    /** The stored value is the serialization of the current queue. */
    ghost predicate Persisted()
      reads this
    {
      storage == Save(queries, storage, dates, json)
    }

    /** Mount: the load effect reads the saved queue, then the save effect writes it back. */
    constructor (saved: Storage, dates: DateCodec, json: JsonCodec)
      ensures this.dates == dates && this.json == json
      ensures queries == Load(saved, dates, json)
      ensures storage == Save(queries, saved, dates, json)
      ensures Persisted()
    {
      this.dates := dates;
      this.json := json;
      queries := Load(saved, dates, json);
      new;
      storage := Save(queries, saved, dates, json);
    }

    /** After each change the storage holds what a reload would bring back. */
    lemma ReloadGivesQueue()
      requires Persisted()
      requires FaithfulDates(dates) && FaithfulJson(json)
      ensures Load(storage, dates, json) == queries
    {
      SaveThenLoad(queries, storage, dates, json);
    }

    method Commit(next: seq<QueryItem>)
      modifies this
      ensures queries == next
      ensures storage == Save(next, old(storage), dates, json)
      ensures Persisted()
    {
      queries := next;
      storage := Save(next, storage, dates, json);
    }

    /** `addQuery`: append, with no duplicate-id check. */
    method AddQuery(query: QueryItem)
      modifies this
      ensures queries == old(queries) + [query]
      ensures storage == Save(queries, old(storage), dates, json)
      ensures Persisted()
    {
      Commit(queries + [query]);
    }

    /** `updateQuery`: merge the update into every record with that id. */
    method UpdateQuery(queryId: string, updates: QueryPatch)
      modifies this
      ensures queries == UpdatedWhere(old(queries), queryId, updates)
      ensures storage == Save(queries, old(storage), dates, json)
      ensures Persisted()
    {
      Commit(UpdatedWhere(queries, queryId, updates));
    }

    /** `removeQuery`: drop every record with that id. */
    method RemoveQuery(queryId: string)
      modifies this
      ensures queries == RemovedWhere(old(queries), queryId)
      ensures storage == Save(queries, old(storage), dates, json)
      ensures Persisted()
    {
      Commit(RemovedWhere(queries, queryId));
    }

    /** `clearQueries` */
    method ClearQueries()
      modifies this
      ensures queries == []
      ensures storage == Save([], old(storage), dates, json)
      ensures Persisted()
    {
      Commit([]);
    }

    /** `getQueryById`: the first record with that id in the current queue. */
    method GetQueryById(queryId: string) returns (r: Option<QueryItem>)
      ensures r == FindById(queries, queryId)
      ensures r.None? <==> !HasId(queries, queryId)
      ensures r.Some? ==> r.value in queries && r.value.id == queryId
    {
      r := FindById(queries, queryId);
    }
  }
}
