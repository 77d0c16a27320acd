/**
 * The structured-extraction pipeline (services/structured_extractor_service.py):
 * clean, gate, parse and validate the model's reply, and the stage chain
 * schema lookup -> retrieval -> generation -> parse, with the generator's
 * sampling parameters overridden for the call and restored afterwards.
 * `json.loads` and `jsonschema.validate` are oracles.
 */
module StructuredExtractor {
  import opened Wrappers
  import opened Strings
  import opened Json
  import opened Schemas
  import opened KbRetriever
  import opened LlmGenerator

  const Fence: string := "```"
  const JsonFence: string := "```json"

  /** Drops a leading "```json". */
  function DropJsonFence(c: string): string {
    if StartsWith(c, "```json") then c[7..] else c
  }

  /** Drops a trailing "```". */
  function DropFence(c: string): string {
    if EndsWith(c, "```") then c[..|c| - 3] else c
  }

  /** The cleaning step: strip, drop a leading "```json", drop a trailing "```", strip again. */
  function CleanOutput(raw: string): (c: string)
    ensures Trimmed(c)
  {
    Strip(DropFence(DropJsonFence(Strip(raw))))
  }

  /** The structural check before parsing: the text looks like one JSON object. */
  predicate LooksLikeObject(c: string) {
    StartsWith(c, "{") && EndsWith(c, "}")
  }

  /** A candidate JSON object text: already stripped, opening with `{` and closing with `}`. */
  predicate ObjectText(j: string) {
    Trimmed(j) && StartsWith(j, "{") && EndsWith(j, "}")
  }

  /** Neither fence touches an object text. */
  lemma FencesMissObject(j: string)
    requires ObjectText(j)
    ensures DropJsonFence(j) == j && DropFence(j) == j
  {
    assert j[0] == '{' && j[|j| - 1] == '}';
  }

  /** Cleaning leaves a bare object text unchanged. */
  lemma CleanBare(j: string)
    requires ObjectText(j)
    ensures CleanOutput(j) == j
  {
    StripTrimmed(j);
    FencesMissObject(j);
    StripTrimmed(j);
  }

  /** Both fences come off a fenced text, leaving what was between them. */
  lemma FencesDropped(middle: string)
    ensures DropFence(DropJsonFence(JsonFence + middle + Fence)) == middle
  {
    var t := JsonFence + middle + Fence;
    assert t[..7] == JsonFence;
    assert t[7..] == middle + Fence;
    var u := middle + Fence;
    assert u[|u| - 3..] == Fence;
    assert u[..|u| - 3] == middle;
  }

  /** A fenced reply, with any whitespace around and inside the fences, cleans to the bare
      object text: exactly what the unfenced reply cleans to. */
  lemma CleanFenced(j: string, before: string, inside: string, trailer: string, after: string)
    requires ObjectText(j)
    requires AllSpace(before) && AllSpace(inside) && AllSpace(trailer) && AllSpace(after)
    ensures CleanOutput(before + JsonFence + inside + j + trailer + Fence + after) == j
    ensures CleanOutput(before + JsonFence + inside + j + trailer + Fence + after) == CleanOutput(j)
  {
    var middle := inside + j + trailer;
    var inner := JsonFence + middle + Fence;
    assert before + JsonFence + inside + j + trailer + Fence + after == before + inner + after;
    assert Trimmed(inner) by { assert inner[0] == '`' && inner[|inner| - 1] == '`'; }
    StripSurrounded(before, inner, after);
    FencesDropped(middle);
    StripSurrounded(inside, j, trailer);
    CleanBare(j);
  }

  /** Python truthiness of a schema dictionary: `{}` is the only falsy schema. */
  predicate NonEmptySchema(s: Schema) {
    s != Schema(None, None, [], [], None)
  }

  /** The answer of `_parse_and_validate` and the texts it handed to `json.loads`. */
  datatype Parsed = Parsed(value: Option<Json>, loadsInputs: seq<string>)

  /** `_parse_and_validate`: empty reply -> None; otherwise clean, gate, parse, and validate when
      a validator is installed and a non-empty schema is given. `loads` is None on a decode
      error; `valid` is false when validation raises. */
  function ParseAndValidate(raw: string, schema: Option<Schema>, validatorAvailable: bool,
                            loads: string -> Option<Json>, valid: (Json, Schema) -> bool): (r: Parsed)
    ensures raw == "" ==> r == Parsed(None, [])
    ensures r.loadsInputs == (if raw != "" && LooksLikeObject(CleanOutput(raw)) then [CleanOutput(raw)] else [])
    ensures r.value.Some? <==>
      raw != "" && LooksLikeObject(CleanOutput(raw)) && loads(CleanOutput(raw)).Some?
      && (validatorAvailable && schema.Some? && NonEmptySchema(schema.value) ==> valid(loads(CleanOutput(raw)).value, schema.value))
    ensures r.value.Some? ==> r.value == loads(CleanOutput(raw))
  {
    if raw == "" then Parsed(None, [])
    else
      var cleaned := CleanOutput(raw);
      if !LooksLikeObject(cleaned) then Parsed(None, [])
      else match loads(cleaned)
        case None => Parsed(None, [cleaned])
        case Some(data) =>
          if validatorAvailable && schema.Some? && NonEmptySchema(schema.value) && !valid(data, schema.value)
          then Parsed(None, [cleaned])
          else Parsed(Some(data), [cleaned])
  }

  /** Fences and surrounding whitespace make no difference to the outcome: a fenced object reply
      parses and validates exactly as the bare object does. */
  lemma ParseIgnoresFences(j: string, before: string, inside: string, trailer: string, after: string,
                           schema: Option<Schema>, validatorAvailable: bool,
                           loads: string -> Option<Json>, valid: (Json, Schema) -> bool)
    requires ObjectText(j)
    requires AllSpace(before) && AllSpace(inside) && AllSpace(trailer) && AllSpace(after)
    ensures ParseAndValidate(before + JsonFence + inside + j + trailer + Fence + after, schema, validatorAvailable, loads, valid)
         == ParseAndValidate(j, schema, validatorAvailable, loads, valid)
  {
    CleanFenced(j, before, inside, trailer, after);
    CleanBare(j);
  }

  /** Without a validator, or without a schema, the parsed value is returned as `json.loads` gave it. */
  lemma NoValidationPassesThrough(raw: string, schema: Option<Schema>, validatorAvailable: bool,
                                  loads: string -> Option<Json>, valid: (Json, Schema) -> bool)
    requires !validatorAvailable || schema.None?
    requires raw != "" && LooksLikeObject(CleanOutput(raw))
    ensures ParseAndValidate(raw, schema, validatorAvailable, loads, valid).value == loads(CleanOutput(raw))
  {
  }

  /** What the pipeline is wired to: the retriever and the index, the configured number of
      results, and the oracles of generation and parsing. */
  datatype Services = Services(
    retriever: Retriever,
    kb: KbQuery -> KbOutcome,
    numberOfRetrievalResults: int,
    dumpsIndent2: Schema -> Option<string>,
    invoke: (string, Json) -> Option<Json>,
    loads: string -> Option<Json>,
    valid: (Json, Schema) -> bool,
    validatorAvailable: bool)

  /** The metadata field the knowledge base filters on. */
  const BookingIdKey: string := "loanBookingId"

  /** The success envelope. */
  datatype Envelope = Envelope(documentIdentifier: string, schemaUsed: string, extractedData: Json, extractionStatus: string)

  /** The pipeline's answer, the generator as left after the call, and what it sent out. */
  datatype Extraction = Extraction(result: Option<Envelope>, generator: Generator,
                                   kbQueries: seq<KbQuery>, modelRequests: seq<Json>)

  /** `extract_from_document`: schema lookup, retrieval, generation with temporary overrides,
      then parsing; each stage's failure ends the call with None. */
  function ExtractFromDocument(svc: Services, g: Generator, documentId: string, schemaName: string,
                               retrievalQuery: Option<string>, temperature: Option<real>,
                               maxTokens: Option<int>): (x: Extraction)
    ensures x.generator == g
    ensures GetSchema(schemaName).None? ==> x == Extraction(None, g, [], [])
    ensures GetSchema(schemaName).Some? ==> x.kbQueries == Retrieve(svc, documentId, retrievalQuery).issued
    ensures x.result.Some? <==>
      GetSchema(schemaName).Some? && Retrieve(svc, documentId, retrievalQuery).chunks.Some?
      && Reply(svc, g, Retrieve(svc, documentId, retrievalQuery).chunks.value, GetSchema(schemaName).value,
               temperature, maxTokens).text.Some?
      && Accepted(svc, GetSchema(schemaName).value,
                  Reply(svc, g, Retrieve(svc, documentId, retrievalQuery).chunks.value, GetSchema(schemaName).value,
                        temperature, maxTokens).text.value)
    ensures x.result.Some? ==>
      x.result.value == Envelope(documentId, schemaName,
        svc.loads(CleanOutput(Reply(svc, g, Retrieve(svc, documentId, retrievalQuery).chunks.value,
                                    GetSchema(schemaName).value, temperature, maxTokens).text.value)).value,
        "success")
    ensures x.result.Some? ==>
      Truthy(x.result.value.extractedData)
      && (svc.validatorAvailable ==> svc.valid(x.result.value.extractedData, GetSchema(schemaName).value))
      && |x.modelRequests| == 1 && |x.kbQueries| == 2
  {
    RegisteredNonEmpty(schemaName);
    ExtractWith(svc, g, documentId, schemaName, GetSchema(schemaName), retrievalQuery, temperature, maxTokens)
  }

  /** Every registered schema is a non-empty dictionary, so a validator always checks against it. */
  lemma RegisteredNonEmpty(name: string)
    ensures GetSchema(name).Some? ==> NonEmptySchema(GetSchema(name).value)
  {
  }

  /** The retrieval step of an extraction: chunks of the document, filtered on its booking id. */
  function Retrieve(svc: Services, documentId: string, retrievalQuery: Option<string>): Retrieval {
    RetrieveDocumentChunks(svc.retriever, svc.kb, documentId, BookingIdKey, retrievalQuery, svc.numberOfRetrievalResults)
  }

  /** The generation step of an extraction, run with the per-call overrides in force. */
  function Reply(svc: Services, g: Generator, chunks: seq<Chunk>, schema: Schema,
                 temperature: Option<real>, maxTokens: Option<int>): Generation {
    GenerateStructuredData(WithOverrides(g, temperature, maxTokens), chunks, schema, svc.dumpsIndent2, svc.invoke)
  }

  /** A reply the pipeline turns into a success: non-empty, its cleaned text passes the `{…}`
      check and `json.loads`, the loaded value is truthy, and it validates whenever a validator
      is installed and the schema is non-empty. */
  predicate Accepted(svc: Services, schema: Schema, text: string) {
    text != "" && LooksLikeObject(CleanOutput(text)) && svc.loads(CleanOutput(text)).Some?
    && Truthy(svc.loads(CleanOutput(text)).value)
    && (svc.validatorAvailable && NonEmptySchema(schema) ==> svc.valid(svc.loads(CleanOutput(text)).value, schema))
  }

  /** The extraction once the schema lookup is done (None for an unknown name). */
  function ExtractWith(svc: Services, g: Generator, documentId: string, schemaName: string, lookup: Option<Schema>,
                       retrievalQuery: Option<string>, temperature: Option<real>,
                       maxTokens: Option<int>): (x: Extraction)
    ensures x.generator == g
    ensures lookup.None? ==> x == Extraction(None, g, [], [])
    ensures lookup.Some? ==> x.kbQueries == Retrieve(svc, documentId, retrievalQuery).issued
    ensures lookup.Some? ==>
      var chunks := Retrieve(svc, documentId, retrievalQuery).chunks;
      x.modelRequests == (if chunks.Some? then Reply(svc, g, chunks.value, lookup.value, temperature, maxTokens).requests
                          else [])
    ensures x.result.Some? <==>
      lookup.Some? && Retrieve(svc, documentId, retrievalQuery).chunks.Some?
      && Reply(svc, g, Retrieve(svc, documentId, retrievalQuery).chunks.value, lookup.value, temperature, maxTokens).text.Some?
      && Accepted(svc, lookup.value,
                  Reply(svc, g, Retrieve(svc, documentId, retrievalQuery).chunks.value, lookup.value,
                        temperature, maxTokens).text.value)
    ensures x.result.Some? ==>
      x.result.value == Envelope(documentId, schemaName,
        svc.loads(CleanOutput(Reply(svc, g, Retrieve(svc, documentId, retrievalQuery).chunks.value, lookup.value,
                                    temperature, maxTokens).text.value)).value,
        "success")
      && |x.modelRequests| == 1
  {
    match lookup
    case None => Extraction(None, g, [], [])
    case Some(schema) =>
      var retrieval := Retrieve(svc, documentId, retrievalQuery);
      match retrieval.chunks
      case None => Extraction(None, g, retrieval.issued, [])
      case Some(chunks) =>
        GenerateAndParse(svc, g, documentId, schemaName, schema, chunks, retrieval.issued, temperature, maxTokens)
  }

  /** The extraction once chunks were retrieved: generate with the overridden generator, restore
      it, then parse and validate the reply. It succeeds exactly when the reply is accepted, and
      then carries what `json.loads` made of the cleaned reply. */
  function GenerateAndParse(svc: Services, g: Generator, documentId: string, schemaName: string, schema: Schema,
                            chunks: seq<Chunk>, issued: seq<KbQuery>, temperature: Option<real>,
                            maxTokens: Option<int>): (x: Extraction)
    ensures x.generator == g && x.kbQueries == issued
    ensures x.modelRequests == Reply(svc, g, chunks, schema, temperature, maxTokens).requests
    ensures x.result.Some? <==>
      Reply(svc, g, chunks, schema, temperature, maxTokens).text.Some?
      && Accepted(svc, schema, Reply(svc, g, chunks, schema, temperature, maxTokens).text.value)
    ensures x.result.Some? ==>
      x.result.value == Envelope(documentId, schemaName,
        svc.loads(CleanOutput(Reply(svc, g, chunks, schema, temperature, maxTokens).text.value)).value, "success")
      && |x.modelRequests| == 1
  {
    var during := WithOverrides(g, temperature, maxTokens);
    var gen := GenerateStructuredData(during, chunks, schema, svc.dumpsIndent2, svc.invoke);
    var after := Restore(during, g);
    OverrideThenRestore(g, temperature, maxTokens);
    if gen.text.None? || gen.text.value == "" then
      Extraction(None, after, issued, gen.requests)
    else
      var parsed := ParseAndValidate(gen.text.value, Some(schema), svc.validatorAvailable, svc.loads, svc.valid);
      if parsed.value.None? || !Truthy(parsed.value.value) then
        Extraction(None, after, issued, gen.requests)
      else
        Extraction(Some(Envelope(documentId, schemaName, parsed.value.value, "success")),
                   after, issued, gen.requests)
  }

  /** Every knowledge-base request of an extraction is filtered to `loanBookingId` = the document. */
  lemma ExtractionQueriesFiltered(svc: Services, g: Generator, documentId: string, schemaName: string,
                                  retrievalQuery: Option<string>, temperature: Option<real>, maxTokens: Option<int>)
    ensures forall q :: q in ExtractFromDocument(svc, g, documentId, schemaName, retrievalQuery, temperature, maxTokens).kbQueries ==>
      q.filter == Equals(BookingIdKey, documentId) && q.knowledgeBaseId == svc.retriever.kbId
  {
    IssuedQueriesFiltered(svc.retriever, svc.kb, documentId, BookingIdKey, retrievalQuery, svc.numberOfRetrievalResults);
  }

  /** The requests an extraction sends are those of one generation with the overridden generator. */
  lemma ExtractionRequests(svc: Services, g: Generator, documentId: string, schemaName: string,
                           retrievalQuery: Option<string>, temperature: Option<real>, maxTokens: Option<int>)
    requires GetSchema(schemaName).Some?
    requires RetrieveDocumentChunks(svc.retriever, svc.kb, documentId, BookingIdKey,
                                    retrievalQuery, svc.numberOfRetrievalResults).chunks.Some?
    ensures ExtractFromDocument(svc, g, documentId, schemaName, retrievalQuery, temperature, maxTokens).modelRequests
         == GenerateStructuredData(WithOverrides(g, temperature, maxTokens),
              RetrieveDocumentChunks(svc.retriever, svc.kb, documentId, BookingIdKey,
                                     retrievalQuery, svc.numberOfRetrievalResults).chunks.value,
              GetSchema(schemaName).value, svc.dumpsIndent2, svc.invoke).requests
  {
  }

  /** During the call the model sees the overridden parameters: `max_tokens` is the override when
      given and the generator's own value otherwise, and likewise for "temperature". */
  lemma ExtractionUsesOverrides(svc: Services, g: Generator, documentId: string, schemaName: string,
                                retrievalQuery: Option<string>, temperature: Option<real>, maxTokens: Option<int>)
    ensures forall body :: body in ExtractFromDocument(svc, g, documentId, schemaName, retrievalQuery, temperature, maxTokens).modelRequests ==>
      CarriesParameters(body, WithOverrides(g, temperature, maxTokens))
  {
    var retrieval := RetrieveDocumentChunks(svc.retriever, svc.kb, documentId, BookingIdKey,
                                            retrievalQuery, svc.numberOfRetrievalResults);
    if GetSchema(schemaName).Some? && retrieval.chunks.Some? {
      ExtractionRequests(svc, g, documentId, schemaName, retrievalQuery, temperature, maxTokens);
      GenerationUsesParameters(WithOverrides(g, temperature, maxTokens), retrieval.chunks.value,
                               GetSchema(schemaName).value, svc.dumpsIndent2, svc.invoke);
    } else if GetSchema(schemaName).Some? {
      ExtractionWithoutChunks(svc, g, documentId, schemaName, retrievalQuery, temperature, maxTokens);
    }
  }

  /** With a registered schema and retrieved chunks, the extraction is one generate-and-parse step. */
  lemma ExtractionGeneratesOnce(svc: Services, g: Generator, documentId: string, schemaName: string,
                                retrievalQuery: Option<string>, temperature: Option<real>, maxTokens: Option<int>)
    requires GetSchema(schemaName).Some?
    requires RetrieveDocumentChunks(svc.retriever, svc.kb, documentId, BookingIdKey,
                                    retrievalQuery, svc.numberOfRetrievalResults).chunks.Some?
    ensures
      var retrieval := RetrieveDocumentChunks(svc.retriever, svc.kb, documentId, BookingIdKey,
                                              retrievalQuery, svc.numberOfRetrievalResults);
      ExtractFromDocument(svc, g, documentId, schemaName, retrievalQuery, temperature, maxTokens)
      == GenerateAndParse(svc, g, documentId, schemaName, GetSchema(schemaName).value, retrieval.chunks.value,
                          retrieval.issued, temperature, maxTokens)
  {
  }

  /** Without chunks no request reaches the model. */
  lemma ExtractionWithoutChunks(svc: Services, g: Generator, documentId: string, schemaName: string,
                                retrievalQuery: Option<string>, temperature: Option<real>, maxTokens: Option<int>)
    requires RetrieveDocumentChunks(svc.retriever, svc.kb, documentId, BookingIdKey,
                                    retrievalQuery, svc.numberOfRetrievalResults).chunks.None?
    ensures ExtractFromDocument(svc, g, documentId, schemaName, retrievalQuery, temperature, maxTokens).modelRequests == []
    ensures ExtractFromDocument(svc, g, documentId, schemaName, retrievalQuery, temperature, maxTokens).result.None?
  {
  }

  /** Once the prompt has been sent and the model has answered, the extraction succeeds exactly
      when the reply's first text block is accepted, and its data is what `json.loads` made of
      that block's cleaned text: nothing is repaired or filled in. */
  lemma SuccessComesFromReply(svc: Services, g: Generator, documentId: string, schemaName: string, schema: Schema,
                              chunks: seq<Chunk>, issued: seq<KbQuery>, temperature: Option<real>,
                              maxTokens: Option<int>, response: Json)
    requires ConstructPrompt(chunks, schema, svc.dumpsIndent2).Some?
    requires svc.invoke(g.modelId, RequestBody(WithOverrides(g, temperature, maxTokens),
                                               ConstructPrompt(chunks, schema, svc.dumpsIndent2).value)) == Some(response)
    ensures GenerateAndParse(svc, g, documentId, schemaName, schema, chunks, issued, temperature, maxTokens).result.Some?
        <==> FirstText(response).Some? && Accepted(svc, schema, FirstText(response).value)
    ensures GenerateAndParse(svc, g, documentId, schemaName, schema, chunks, issued, temperature, maxTokens).result.Some? ==>
      GenerateAndParse(svc, g, documentId, schemaName, schema, chunks, issued, temperature, maxTokens).result.value.extractedData
      == svc.loads(CleanOutput(FirstText(response).value)).value
  {
    assert Reply(svc, g, chunks, schema, temperature, maxTokens).text == FirstText(response);
  }

  /** The service object: it owns one generator shared by all calls. Its extraction method
      mutates the generator for the duration of the call and leaves it as it found it. */
  class ExtractorService {
    var generator: Generator

    constructor(g: Generator)
      ensures generator == g
    {
      generator := g;
    }

    method Extract(svc: Services, documentId: string, schemaName: string,
                               retrievalQuery: Option<string>, temperature: Option<real>,
                               maxTokens: Option<int>) returns (result: Option<Envelope>)
      modifies this
      ensures generator == old(generator)
      ensures result == ExtractFromDocument(svc, old(generator), documentId, schemaName,
                                            retrievalQuery, temperature, maxTokens).result
      ensures result.Some? <==>
        GetSchema(schemaName).Some? && Retrieve(svc, documentId, retrievalQuery).chunks.Some?
        && Reply(svc, old(generator), Retrieve(svc, documentId, retrievalQuery).chunks.value,
                 GetSchema(schemaName).value, temperature, maxTokens).text.Some?
        && Accepted(svc, GetSchema(schemaName).value,
                    Reply(svc, old(generator), Retrieve(svc, documentId, retrievalQuery).chunks.value,
                          GetSchema(schemaName).value, temperature, maxTokens).text.value)
    {
      var saved := generator;
      var schema := GetSchema(schemaName);
      if schema.None? {
        return None;
      }
      var retrieval := RetrieveDocumentChunks(svc.retriever, svc.kb, documentId, BookingIdKey,
                                              retrievalQuery, svc.numberOfRetrievalResults);
      if retrieval.chunks.None? {
        ExtractionWithoutChunks(svc, saved, documentId, schemaName, retrievalQuery, temperature, maxTokens);
        return None;
      }
      ExtractionGeneratesOnce(svc, saved, documentId, schemaName, retrievalQuery, temperature, maxTokens);
      var originalTemperature := generator.temperature;
      var originalMaxTokens := generator.maxTokensToSample;
      if temperature.Some? {
        generator := generator.(temperature := temperature);
      }
      if maxTokens.Some? {
        generator := generator.(maxTokensToSample := maxTokens.value);
      }
      assert generator == WithOverrides(saved, temperature, maxTokens);
      var x := GenerateAndParse(svc, saved, documentId, schemaName, schema.value, retrieval.chunks.value,
                                retrieval.issued, temperature, maxTokens);
      generator := generator.(temperature := originalTemperature, maxTokensToSample := originalMaxTokens);
      result := x.result;
    }
  }
}
