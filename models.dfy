/**
 * The records exchanged between the frontend and the backend: the Pydantic
 * models of the backend and the matching TypeScript interfaces.
 */
module Models {
  import opened Wrappers

  /** A reference to a source fragment supporting an answer. */
  datatype Citation = Citation(file: string, chunkId: Option<string>, page: Option<int>)

  /** The answer to a query together with its citations, in the order received. */
  datatype QueryResponse = QueryResponse(answer: string, citations: seq<Citation>)

  /** The health endpoint's report. */
  datatype HealthResponse = HealthResponse(status: string, storeName: Option<string>, fileCount: Option<int>)

  /** The upload endpoint's report (its optional size in megabytes is not modelled). */
  datatype UploadResponse = UploadResponse(success: bool, filename: string, message: string)
}
