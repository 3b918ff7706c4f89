/**
 * The HTTP endpoints of the backend (backend/app/main.py): the guard chain
 * of `POST /api/query`, which decides the status code and detail of every
 * refusal before the Gemini call and maps the call's exceptions to 500
 * responses, and the status report of `GET /health`. The module-level
 * `gemini_client` is a nullable `Client`; `null` is a failed construction.
 */
module BackendMain {
  import opened Wrappers
  import opened Text
  import opened Models
  import opened Sdk
  import opened Validation
  import opened Citations
  import opened GeminiClient

  const ServiceUnavailableMessage := "Service unavailable: Gemini API key not configured"
  const ConfigurationErrorPrefix := "Configuration error: "
  const QueryErrorPrefix := "Query failed: "
  const UnexpectedErrorPrefix := "Unexpected error: "
  const DegradedStatus := "degraded"
  const HealthyStatus := "healthy"
  const ErrorStatusPrefix := "error: "

  /** What an endpoint answers: a body with status 200, or an `HTTPException`. */
  datatype HttpOutcome<+T> = Ok(body: T) | HttpError(status: int, detail: string)

  /** The 500 detail for an exception raised by the query: its class picks the prefix. */
  function QueryErrorDetail(e: PyException): (d: string)
    ensures e.ValueError? ==> d == ConfigurationErrorPrefix + e.message
    ensures e.RuntimeError? ==> d == QueryErrorPrefix + e.message
    ensures e.OtherException? ==> d == UnexpectedErrorPrefix + e.message
  {
    match e
    case ValueError(m) => ConfigurationErrorPrefix + m
    case RuntimeError(m) => QueryErrorPrefix + m
    case OtherException(m) => UnexpectedErrorPrefix + m
  }

  /** `not question or not question.strip()`: nothing but Python whitespace. */
  function IsBlank(question: string): (b: bool)
    ensures b <==> AllIn(question, IsPyWhitespace)
  {
    question == "" || PyStrip(question) == ""
  }

  /**
   * The query endpoint given the outcome `query` would have if called:
   * 503 without a client, checked first; 400 for a blank question; 400 for
   * more than 1000 characters (Python counts code points, untrimmed); 500
   * for a raised exception; otherwise the answer and its citations.
   */
  function QueryEndpoint(configured: bool, question: string, outcome: Result<Answer, PyException>)
    : (r: HttpOutcome<QueryResponse>)
    ensures !configured ==> r == HttpError(503, ServiceUnavailableMessage)
    ensures configured ==> (r == HttpError(400, EmptyQuestionError) <==> IsBlank(question))
    ensures configured && !IsBlank(question) ==> (r == HttpError(400, TooLongQuestionError) <==> |question| > 1000)
    ensures r.HttpError? && r.status == 500 <==>
              configured && !IsBlank(question) && |question| <= 1000 && outcome.Failure?
    ensures r.HttpError? && r.status == 500 ==> r.detail == QueryErrorDetail(outcome.error)
    ensures r.Ok? <==> configured && !IsBlank(question) && |question| <= 1000 && outcome.Success?
    ensures r.Ok? ==> r.body.answer == outcome.value.text
                      && r.body.citations == CitationsOf(outcome.value.groundingMetadata)
  {
    if !configured then HttpError(503, ServiceUnavailableMessage)
    else if IsBlank(question) then HttpError(400, EmptyQuestionError)
    else if |question| > 1000 then HttpError(400, TooLongQuestionError)
    else match outcome
      case Failure(e) => HttpError(500, QueryErrorDetail(e))
      case Success(answer) => Ok(QueryResponse(answer.text, CitationsOf(answer.groundingMetadata)))
  }

  /** A failed store creation reaches the caller wrapped twice, as a query failure. */
  lemma StoreCreationFailureDetail(question: string, reason: string)
    requires !IsBlank(question) && |question| <= 1000
    ensures QueryEndpoint(true, question, Failure(RuntimeError(CreateStoreFailurePrefix + reason)))
         == HttpError(500, QueryErrorPrefix + CreateStoreFailurePrefix + reason)
  {
  }

  /** A reply without candidates is reported as a query failure with the client's own prefix. */
  lemma NoCandidatesDetail(question: string, text: string)
    requires !IsBlank(question) && |question| <= 1000
    ensures QueryEndpoint(true, question, AnswerOf(Success(Generation([], text))))
         == HttpError(500, QueryErrorPrefix + QueryFailurePrefix + NoCandidatesMessage)
  {
  }

  /**
   * The health endpoint given what `get_store_info` yields: 'degraded'
   * without a client, 'healthy' with the store's name and count, or
   * 'error: ' and the exception's text, with both fields null.
   */
  function HealthEndpoint(configured: bool, info: Result<StoreInfo, PyException>): (r: HealthResponse)
    ensures !configured ==> r == HealthResponse(DegradedStatus, None, None)
    ensures configured && info.Success? ==>
              r.status == HealthyStatus && r.storeName == Some(info.value.storeName)
              && r.fileCount == info.value.fileCount
    ensures configured && info.Failure? ==>
              r == HealthResponse(ErrorStatusPrefix + info.error.message, None, None)
  {
    if !configured then HealthResponse(DegradedStatus, None, None)
    else match info
      case Success(storeInfo) => HealthResponse(HealthyStatus, Some(storeInfo.storeName), storeInfo.fileCount)
      case Failure(e) => HealthResponse(ErrorStatusPrefix + e.message, None, None)
  }

  /** The report says 'healthy' exactly when a client exists and the store information was read. */
  lemma HealthyExactlyOnSuccess(configured: bool, info: Result<StoreInfo, PyException>)
    ensures HealthEndpoint(configured, info).status == HealthyStatus <==> configured && info.Success?
  {
    var r := HealthEndpoint(configured, info);
    if configured && info.Failure? {
      assert r.status[0] == ErrorStatusPrefix[0] == 'e';
      assert HealthyStatus[0] == 'h';
    }
  }

  /** Only a healthy report names a store. */
  lemma StoreNamedOnlyWhenHealthy(configured: bool, info: Result<StoreInfo, PyException>)
    ensures HealthEndpoint(configured, info).storeName.Some? <==> HealthEndpoint(configured, info).status == HealthyStatus
  {
    HealthyExactlyOnSuccess(configured, info);
  }

  /**
   * `query_case_studies` against the module's client: the guards run before
   * the client is touched, so a refused request leaves its cache alone; an
   * admitted one answers `QueryEndpoint` of what `Client.Query` returns.
   */
  method QueryCaseStudies(client: Client?, question: string, systemPrompt: string, displayName: string,
                          service: StoresService, generate: (string, string) -> Result<Generation, string>)
    returns (r: HttpOutcome<QueryResponse>)
    modifies client
    ensures client == null ==> r == HttpError(503, ServiceUnavailableMessage)
    ensures client != null && IsBlank(question) ==>
              r == HttpError(400, EmptyQuestionError) && client.storeNameCache == old(client.storeNameCache)
    ensures client != null && !IsBlank(question) && |question| > 1000 ==>
              r == HttpError(400, TooLongQuestionError) && client.storeNameCache == old(client.storeNameCache)
    ensures client != null && !IsBlank(question) && |question| <= 1000 ==>
              var name := StoreLookup(old(client.storeNameCache), client.hasStores, displayName, service);
              r == QueryEndpoint(true, question,
                                 if name.Failure? then Failure(name.error)
                                 else AnswerOf(generate(name.value, FullPrompt(systemPrompt, question))))
              && client.storeNameCache == (if name.Success? then name.value else old(client.storeNameCache))
  {
    if client == null {
      return HttpError(503, ServiceUnavailableMessage);
    }
    if question == "" || PyStrip(question) == "" {
      return HttpError(400, EmptyQuestionError);
    }
    if |question| > 1000 {
      return HttpError(400, TooLongQuestionError);
    }
    var outcome := client.Query(question, systemPrompt, displayName, service, generate);
    match outcome {
      case Failure(e) =>
        return HttpError(500, QueryErrorDetail(e));
      case Success(answer) =>
        var citations := ExtractCitations(answer.groundingMetadata);
        return Ok(QueryResponse(answer.text, citations));
    }
  }

  /** `health_check` against the module's client: `HealthEndpoint` of what `Client.GetStoreInfo` returns. */
  method HealthCheck(client: Client?, displayName: string, service: StoresService,
                     listing: Result<seq<RemoteFile>, string>)
    returns (r: HealthResponse)
    modifies client
    ensures client == null ==> r == HealthResponse(DegradedStatus, None, None)
    ensures client != null ==>
              var name := StoreLookup(old(client.storeNameCache), client.hasStores, displayName, service);
              r == HealthEndpoint(true, if name.Failure? then Failure(name.error)
                                        else Success(StoreInfoOf(name.value, client.hasFiles, listing)))
              && client.storeNameCache == (if name.Success? then name.value else old(client.storeNameCache))
  {
    if client == null {
      return HealthResponse(DegradedStatus, None, None);
    }
    var storeInfo := client.GetStoreInfo(displayName, service, listing);
    match storeInfo {
      case Success(info) =>
        return HealthResponse(HealthyStatus, Some(info.storeName), info.fileCount);
      case Failure(e) =>
        return HealthResponse(ErrorStatusPrefix + e.message, None, None);
    }
  }
}
