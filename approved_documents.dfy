/**
 * The approved-documents accumulator of the review UI
 * (nextjs_frontend/contexts/ApprovedDocumentsContext.tsx): an ordered list of
 * document updates keyed by `document_metadata.chunk_id`. Each operation of
 * the provider replaces the list by a pure transform of the previous one; the
 * transforms are the functions below and the provider is the class at the end.
 */
module ApprovedDocuments {
  import opened Documents
  import opened Sequences

  /** `prev.some(doc => doc.document_metadata.chunk_id === chunkId)` */
  predicate HasChunk(docs: seq<DocumentUpdate>, chunkId: string)
  {
    exists i :: 0 <= i < |docs| && ChunkId(docs[i]) == chunkId
  }

  /** The invariant the deduplicating add is meant to keep: no key occurs twice. */
  predicate UniqueChunkIds(docs: seq<DocumentUpdate>)
  {
    forall i, j :: 0 <= i < j < |docs| ==> ChunkId(docs[i]) != ChunkId(docs[j])
  }

  /** The new list computed by `addApprovedDocument`: unchanged if the key is present, else appended. */
  function WithDocument(docs: seq<DocumentUpdate>, document: DocumentUpdate): (r: seq<DocumentUpdate>)
    ensures HasChunk(r, ChunkId(document))
    ensures HasChunk(docs, ChunkId(document)) ==> r == docs
    ensures !HasChunk(docs, ChunkId(document)) ==> |r| == |docs| + 1 && r[..|docs|] == docs && r[|docs|] == document
    ensures UniqueChunkIds(docs) ==> UniqueChunkIds(r)
  {
    if HasChunk(docs, ChunkId(document)) then docs
    else
      var r := docs + [document];
      assert ChunkId(r[|docs|]) == ChunkId(document);
      r
  }

  /** The new list computed by `removeApprovedDocument`: `prev.filter(doc => chunk_id !== chunkId)`. */
  function WithoutChunk(docs: seq<DocumentUpdate>, chunkId: string): (r: seq<DocumentUpdate>)
    ensures forall d :: d in r <==> d in docs && ChunkId(d) != chunkId
    ensures !HasChunk(r, chunkId)
    ensures IsSubsequence(r, docs)
    ensures !HasChunk(docs, chunkId) ==> r == docs
    ensures UniqueChunkIds(docs) ==> UniqueChunkIds(r)
    decreases |docs|
  {
    if docs == [] then []
    else if ChunkId(docs[0]) != chunkId then
      var rest := WithoutChunk(docs[1..], chunkId);
      if UniqueChunkIds(docs) then
        ConsKeepsUnique(docs, rest);
        [docs[0]] + rest
      else [docs[0]] + rest
    else WithoutChunk(docs[1..], chunkId)
  }

  /** Putting the head of a list without repeated keys in front of entries from its tail repeats no key. */
  lemma ConsKeepsUnique(docs: seq<DocumentUpdate>, rest: seq<DocumentUpdate>)
    requires docs != [] && UniqueChunkIds(docs)
    requires UniqueChunkIds(rest)
    requires forall d :: d in rest ==> d in docs[1..]
    ensures UniqueChunkIds([docs[0]] + rest)
  {
    var r := [docs[0]] + rest;
    forall i, j | 0 <= i < j < |r|
      ensures ChunkId(r[i]) != ChunkId(r[j])
    {
      if i == 0 {
        assert r[j] in docs[1..];
        var k :| 0 <= k < |docs[1..]| && docs[1..][k] == r[j];
        assert docs[k + 1] == r[j];
      } else {
        assert r[i] == rest[i - 1] && r[j] == rest[j - 1];
      }
    }
  }

  /** Removal drops every copy of an entry with that key and keeps every other entry as often as it occurred. */
  lemma {:induction false} WithoutChunkCounts(docs: seq<DocumentUpdate>, chunkId: string)
    ensures forall d :: multiset(WithoutChunk(docs, chunkId))[d] == if ChunkId(d) != chunkId then multiset(docs)[d] else 0
    decreases |docs|
  {
    if docs != [] {
      WithoutChunkCounts(docs[1..], chunkId);
      assert docs == [docs[0]] + docs[1..];
      forall d ensures multiset(WithoutChunk(docs, chunkId))[d] == if ChunkId(d) != chunkId then multiset(docs)[d] else 0 {
        CountCons(docs[0], docs[1..], d);
        if ChunkId(docs[0]) != chunkId {
          CountCons(docs[0], WithoutChunk(docs[1..], chunkId), d);
        }
      }
    }
  }

  /**
   * The new list computed by `updateApprovedDocument`: every entry with key
   * `chunkId` becomes `updated`, the others are kept where they are.
   */
  function ReplacingChunk(docs: seq<DocumentUpdate>, chunkId: string, updated: DocumentUpdate): (r: seq<DocumentUpdate>)
    ensures |r| == |docs|
    ensures forall i :: 0 <= i < |docs| && ChunkId(docs[i]) != chunkId ==> r[i] == docs[i]
    ensures forall i :: 0 <= i < |docs| && ChunkId(docs[i]) == chunkId ==> r[i] == updated
    ensures !HasChunk(docs, chunkId) ==> r == docs
    decreases |docs|
  {
    if docs == [] then []
    else [if ChunkId(docs[0]) == chunkId then updated else docs[0]] + ReplacingChunk(docs[1..], chunkId, updated)
  }

  /** Adding the same document twice is the same as adding it once. */
  lemma AddTwiceIsAddOnce(docs: seq<DocumentUpdate>, document: DocumentUpdate)
    ensures WithDocument(WithDocument(docs, document), document) == WithDocument(docs, document)
  {
  }

  /** Removing a key twice is the same as removing it once. */
  lemma RemoveIsIdempotent(docs: seq<DocumentUpdate>, chunkId: string)
    ensures WithoutChunk(WithoutChunk(docs, chunkId), chunkId) == WithoutChunk(docs, chunkId)
  {
  }

  /** A replacement that keeps the key keeps every key distinct. */
  lemma ReplaceKeepsKeysUnique(docs: seq<DocumentUpdate>, chunkId: string, updated: DocumentUpdate)
    requires UniqueChunkIds(docs)
    requires ChunkId(updated) == chunkId
    ensures UniqueChunkIds(ReplacingChunk(docs, chunkId, updated))
  {
    var r := ReplacingChunk(docs, chunkId, updated);
    forall i, j | 0 <= i < j < |r|
      ensures ChunkId(r[i]) != ChunkId(r[j])
    {
      assert ChunkId(r[i]) == ChunkId(docs[i]);
      assert ChunkId(r[j]) == ChunkId(docs[j]);
    }
  }

  /**
   * Without that condition the source's update can create a duplicate key:
   * replacing "a" by a document keyed "b" in a list holding "a" and "b".
   */
  lemma ReplaceWithOtherKeyCanDuplicate(a: DocumentUpdate, b: DocumentUpdate)
    requires ChunkId(a) != ChunkId(b)
    ensures UniqueChunkIds([a, b])
    ensures !UniqueChunkIds(ReplacingChunk([a, b], ChunkId(a), b))
  {
    var r := ReplacingChunk([a, b], ChunkId(a), b);
    assert r[0] == b && r[1] == b;
  }

  /** The provider: one mutable list, replaced by each operation. */
  class ApprovedDocumentsStore {
    var approvedDocuments: seq<DocumentUpdate>

    /** `useState<DocumentUpdate[]>([])` */
    constructor ()
      ensures approvedDocuments == []
      ensures UniqueChunkIds(approvedDocuments)
    {
      approvedDocuments := [];
    }

    method AddApprovedDocument(document: DocumentUpdate)
      modifies this
      ensures approvedDocuments == WithDocument(old(approvedDocuments), document)
      ensures UniqueChunkIds(old(approvedDocuments)) ==> UniqueChunkIds(approvedDocuments)
    {
      approvedDocuments := WithDocument(approvedDocuments, document);
    }

    method RemoveApprovedDocument(chunkId: string)
      modifies this
      ensures approvedDocuments == WithoutChunk(old(approvedDocuments), chunkId)
      ensures UniqueChunkIds(old(approvedDocuments)) ==> UniqueChunkIds(approvedDocuments)
    {
      approvedDocuments := WithoutChunk(approvedDocuments, chunkId);
    }

    method ClearApprovedDocuments()
      modifies this
      ensures approvedDocuments == []
      ensures UniqueChunkIds(approvedDocuments)
    {
      approvedDocuments := [];
    }

    method UpdateApprovedDocument(chunkId: string, updatedDocument: DocumentUpdate)
      modifies this
      ensures approvedDocuments == ReplacingChunk(old(approvedDocuments), chunkId, updatedDocument)
      ensures UniqueChunkIds(old(approvedDocuments)) && ChunkId(updatedDocument) == chunkId ==>
                UniqueChunkIds(approvedDocuments)
    {
      if UniqueChunkIds(approvedDocuments) && ChunkId(updatedDocument) == chunkId {
        ReplaceKeepsKeysUnique(approvedDocuments, chunkId, updatedDocument);
      }
      approvedDocuments := ReplacingChunk(approvedDocuments, chunkId, updatedDocument);
    }
  }
}
