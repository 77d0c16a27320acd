/**
 * Chunk retrieval from the knowledge base for one document
 * (utils/bedrock_kb_retriever.py). The index's `retrieve` call is an oracle;
 * every call returns the queries it issued, in order.
 */
module KbRetriever {
  import opened Wrappers
  import opened Json

  /** One retrieval result. `text` is its `content.text`, "" when absent;
      the location, metadata and score are carried through untouched. */
  datatype Chunk = Chunk(text: string, location: Json, metadata: Json, score: Json)

  /** The metadata filter `{'equals': {'key': k, 'value': v}}`. */
  datatype Filter = Equals(key: string, value: string)

  /** One `retrieve` request: knowledge base, `numberOfResults`, filter and query text. */
  datatype KbQuery = KbQuery(knowledgeBaseId: string, numberOfResults: int, filter: Filter, text: string)

  /** What the index does with one request: the `retrievalResults` list, or an exception. */
  datatype KbOutcome = Results(chunks: seq<Chunk>) | Raised

  /** A configured retriever. */
  datatype Retriever = Retriever(kbId: string)

  /** The answer of `retrieve_document_chunks` together with the requests it issued. */
  datatype Retrieval = Retrieval(chunks: Option<seq<Chunk>>, issued: seq<KbQuery>)

  /** The constructor: a missing knowledge-base id raises `ValueError`. */
  function NewRetriever(kbId: string): (r: Result<Retriever, string>)
    ensures r.Ok? <==> kbId != ""
    ensures r.Ok? ==> r.value.kbId == kbId
  {
    if kbId == "" then Err("Knowledge Base ID (KB_ID) is not configured.") else Ok(Retriever(kbId))
  }

  /** The existence probe: one result, filtered to the document, with a fixed query text. */
  function ProbeQuery(r: Retriever, documentId: string, metadataKey: string): KbQuery {
    KbQuery(r.kbId, 1, Equals(metadataKey, documentId), "Validate document with ID " + documentId)
  }

  /** `query_text` when truthy, otherwise a query naming the document. */
  function EffectiveQuery(documentId: string, queryText: Option<string>): (q: string)
    ensures queryText.Some? && queryText.value != "" ==> q == queryText.value
    ensures queryText.None? || queryText.value == "" ==> q == "Information related to document ID " + documentId
  {
    if queryText.Some? && queryText.value != "" then queryText.value
    else "Information related to document ID " + documentId
  }

  /** The main query: `num_results` results under the same equality filter as the probe. */
  function MainQuery(r: Retriever, documentId: string, metadataKey: string,
                     queryText: Option<string>, numResults: int): KbQuery {
    KbQuery(r.kbId, numResults, Equals(metadataKey, documentId), EffectiveQuery(documentId, queryText))
  }

  /** The index answered with at least one result. */
  predicate Found(o: KbOutcome) {
    o.Results? && |o.chunks| > 0
  }

  /** `retrieve_document_chunks`: argument checks, existence probe, then the filtered main query. */
  function RetrieveDocumentChunks(r: Retriever, kb: KbQuery -> KbOutcome, documentId: string,
                                  metadataKey: string, queryText: Option<string>, numResults: int): (out: Retrieval)
    ensures documentId == "" || metadataKey == "" ==> out == Retrieval(None, [])
    ensures |out.issued| <= 2
    ensures |out.issued| >= 1 ==> out.issued[0] == ProbeQuery(r, documentId, metadataKey)
    ensures |out.issued| == 2 <==> documentId != "" && metadataKey != "" && Found(kb(ProbeQuery(r, documentId, metadataKey)))
    ensures |out.issued| == 2 ==> out.issued[1] == MainQuery(r, documentId, metadataKey, queryText, numResults)
    ensures out.chunks.Some? <==> |out.issued| == 2 && Found(kb(out.issued[1]))
    ensures out.chunks.Some? ==> kb(out.issued[1]) == Results(out.chunks.value)
  {
    if documentId == "" || metadataKey == "" then Retrieval(None, [])
    else
      var probe := ProbeQuery(r, documentId, metadataKey);
      if !Found(kb(probe)) then Retrieval(None, [probe])
      else
        var main := MainQuery(r, documentId, metadataKey, queryText, numResults);
        var o := kb(main);
        if Found(o) then Retrieval(Some(o.chunks), [probe, main]) else Retrieval(None, [probe, main])
  }

  /** Every request a retrieval issues is restricted to the requested document under the given key. */
  lemma IssuedQueriesFiltered(r: Retriever, kb: KbQuery -> KbOutcome, documentId: string,
                              metadataKey: string, queryText: Option<string>, numResults: int)
    ensures forall q :: q in RetrieveDocumentChunks(r, kb, documentId, metadataKey, queryText, numResults).issued ==>
      q.filter == Equals(metadataKey, documentId) && q.knowledgeBaseId == r.kbId && documentId != "" && metadataKey != ""
  {
    var out := RetrieveDocumentChunks(r, kb, documentId, metadataKey, queryText, numResults);
    assert out.issued == [] || out.issued == [out.issued[0]] || out.issued == [out.issued[0], out.issued[1]];
  }

  /** Returned chunks are exactly the main query's answer, which only the probe's success lets through;
      the retrieval does not depend on anything the index says to other requests. */
  lemma RetrievalDependsOnTwoQueries(r: Retriever, kb1: KbQuery -> KbOutcome, kb2: KbQuery -> KbOutcome,
                                     documentId: string, metadataKey: string, queryText: Option<string>, numResults: int)
    requires kb1(ProbeQuery(r, documentId, metadataKey)) == kb2(ProbeQuery(r, documentId, metadataKey))
    requires kb1(MainQuery(r, documentId, metadataKey, queryText, numResults)) ==
             kb2(MainQuery(r, documentId, metadataKey, queryText, numResults))
    ensures RetrieveDocumentChunks(r, kb1, documentId, metadataKey, queryText, numResults) ==
            RetrieveDocumentChunks(r, kb2, documentId, metadataKey, queryText, numResults)
  {
  }
}
