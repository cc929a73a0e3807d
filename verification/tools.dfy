/** The two tool handlers of the server, `search_document` and
    `get_document_info`. Both turn a collaborator failure into result text:
    neither ever raises to its caller. */
module Tools {
  import opened Outcomes
  import opened JsonData
  import opened Collaborators

  const SEARCH_FAILED_PREFIX: string := "검색 중 오류가 발생했습니다: "
  const INFO_FAILED_PREFIX: string := "문서 정보 조회 중 오류가 발생했습니다: "
  const NO_RESULTS_SUFFIX: string := "'에 대한 검색 결과가 없습니다."

  /** The text returned when the search finds nothing, quoting the query. */
  function NoResultsText(query: string): string {
    "'" + query + NO_RESULTS_SUFFIX
  }

  /** The search returned at least one passage. */
  predicate HasHits(env: Env, query: Json, limit: Json) {
    env.retrieve(query, limit).Success? && |env.retrieve(query, limit).value| > 0
  }

  /** `search_document(query, max_results)`: search the store; with no hits,
      say so without consulting the summariser; otherwise return the
      summariser's text verbatim. A failure of either call becomes text. */
  function SearchDocument(env: Env, query: Json, limit: Json): (r: Traced<string>)
    ensures r.calls == [Retrieve(query, limit)] +
      (if HasHits(env, query, limit) then [Summarise(query, env.retrieve(query, limit).value)] else [])
    ensures env.retrieve(query, limit) == Success([]) ==>
      r.value == NoResultsText(PyStr(query, env.repr))
    ensures env.retrieve(query, limit).Failure? ==>
      r.value == SEARCH_FAILED_PREFIX + env.retrieve(query, limit).message
    ensures HasHits(env, query, limit) ==>
      var summary := env.summarise(query, env.retrieve(query, limit).value);
      r.value == (if summary.Success? then summary.value else SEARCH_FAILED_PREFIX + summary.message)
  {
    match env.retrieve(query, limit)
    case Failure(m) => Traced(SEARCH_FAILED_PREFIX + m, [Retrieve(query, limit)])
    case Success(hits) =>
      if |hits| == 0 then
        Traced(NoResultsText(PyStr(query, env.repr)), [Retrieve(query, limit)])
      else
        var calls := [Retrieve(query, limit), Summarise(query, hits)];
        match env.summarise(query, hits)
        case Failure(m) => Traced(SEARCH_FAILED_PREFIX + m, calls)
        case Success(text) => Traced(text, calls)
  }

  /** Without hits, what the summariser would do cannot matter: two
      environments that agree on the search give the same answer and the same
      calls, however their summarisers behave. */
  lemma SummariserUnreachedWithoutHits(env: Env, other: Env, query: Json, limit: Json)
    requires other.retrieve(query, limit) == env.retrieve(query, limit)
    requires other.repr == env.repr
    requires !HasHits(env, query, limit)
    ensures SearchDocument(other, query, limit) == SearchDocument(env, query, limit)
  {
  }

  /** `get_document_info()`: count the stored chunks and render the fixed
      information text; a failure becomes text. */
  function GetDocumentInfo(env: Env): (r: Traced<string>)
    ensures r.calls == [CountChunks]
    ensures env.chunkCount.Success? ==> r.value == env.infoText(env.chunkCount.value)
    ensures env.chunkCount.Failure? ==> r.value == INFO_FAILED_PREFIX + env.chunkCount.message
  {
    match env.chunkCount
    case Success(n) => Traced(env.infoText(n), [CountChunks])
    case Failure(m) => Traced(INFO_FAILED_PREFIX + m, [CountChunks])
  }
}
