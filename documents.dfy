/**
 * The document-update payload returned by the backend and accumulated by the
 * approval store (nextjs_frontend/types/index.ts). The queue and the approval
 * store treat it as an immutable value.
 */
module Documents {

  /** `change_type: "modified" | "removed" | "unchanged"` */
  datatype ChangeType = Modified | Removed | Unchanged

  datatype ModelOutput = ModelOutput(
    change_type: ChangeType,
    original: string,
    suggested: string)

  datatype DocumentMetadata = DocumentMetadata(
    chunk_id: string,
    title: string,
    source_url: string,
    file_path: string)

  datatype DocumentUpdate = DocumentUpdate(
    model_output: ModelOutput,
    document_metadata: DocumentMetadata)

  /** The key the approval store uses: `doc.document_metadata.chunk_id`. */
  function ChunkId(d: DocumentUpdate): string
  {
    d.document_metadata.chunk_id
  }
}
