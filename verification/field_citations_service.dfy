/**
 * The other field-citation service (services/field_level_extractor_service.py). It shares
 * the chunk numbering and the field lines with field_citations.dfy but writes real line
 * breaks, and it answers "success" even when the enhanced step fails. The file ends in the
 * middle of the prompt template, so the rest of the template, the model call and the reply
 * parser are parameters here.
 */
module FieldCitationsService {
  import opened Wrappers
  import opened Strings
  import opened Json
  import opened Schemas
  import opened KbRetriever
  import opened LlmGenerator
  import opened StructuredExtractor
  import FieldCitations

  /** The line break this variant writes between a label and its text and between pieces. */
  const Newline: string := "\n"

  /** The visible template: its opening up to the chunks, the text between chunks and fields,
      and what follows the fields up to where the file ends. */
  const Intro: string :=
    "Human: You are an expert data extraction system. Analyze the provided document chunks and extract specific fields with citations.\n\n<document_chunks>\n"

  const Middle: string :=
    "\n</document_chunks>\n\nExtract the following fields:\n"

  const VisibleTail: string :=
    "\n\nYour response must be a JSON object with this exact structure:\n{\n  \"extracted_data\": {\n    \"field_name\": \"extracted_value\",\n    ...\n  },\n  \"field_citations\": {\n    \"field_name\": [\"CHUNK_1\", \"CHUNK_3\"],\n    ...\n  }\n}\n\nInstructions:\n1. For \"extracted_data\": Extract each field's value based only on the document chunks\n2. For \"field_citations\": List the chunk numbers (e.g., [\"CHUNK_1\", \"CHUNK_2\"]) that contain evidence for each field\n3. Use null for fields not found in the documents\n4. Only reference chunks that actually contain relevant information for each field\n5. Your entire response must be valid JSON starting with { and ending with }"

  /** `_create_field_citation_prompt`: None when no chunk has text; otherwise the numbered chunks
      joined by blank lines and the field lines joined by line breaks, inside the template whose
      remainder after the visible part is `hiddenTail`. */
  function CreateFieldCitationPrompt(chunks: seq<Chunk>, properties: seq<(string, Schema)>, hiddenTail: string): (p: Option<string>)
    ensures p.None? <==> forall i :: 0 <= i < |chunks| ==> FieldCitations.StrippedTexts(chunks)[i] == ""
    ensures p.Some? ==> StartsWith(p.value, Intro + FieldCitations.ChunkContext(chunks, Newline) + Middle
                                            + Join(FieldCitations.FieldLines(properties), Newline) + VisibleTail)
  {
    FieldCitations.BlankChunksAreSkipped(chunks, Newline);
    if |FieldCitations.NumberedPieces(chunks, Newline)| == 0 then None
    else
      var front := Intro + FieldCitations.ChunkContext(chunks, Newline) + Middle
                   + Join(FieldCitations.FieldLines(properties), Newline) + VisibleTail;
      assert (front + hiddenTail)[..|front|] == front;
      Some(front + hiddenTail)
  }

  /** The first two labels. */
  lemma FirstLabels(t: string, newline: string)
    ensures FieldCitations.NumberedPiece(0, t, newline) == "[CHUNK_1]" + newline + t
    ensures FieldCitations.NumberedPiece(1, t, newline) == "[CHUNK_2]" + newline + t
  {
    assert NatToString(1) == "1";
    assert NatToString(2) == "2";
  }

  /** A one-element sequence is the display of its element. */
  lemma SingletonOf<T>(s: seq<T>)
    requires |s| == 1
    ensures s == [s[0]]
  {
  }

  /** A two-element sequence is the display of its elements. */
  lemma PairOf<T>(s: seq<T>)
    requires |s| == 2
    ensures s == [s[0], s[1]]
  {
  }

  /** One non-empty text survives at position 0. */
  lemma SurvivorsOfOne(texts: seq<string>)
    requires |texts| == 1 && texts[0] != ""
    ensures FieldCitations.Survivors(texts, 0) == [0]
  {
    assert FieldCitations.Survivors(texts, 1) == [];
  }

  /** Two non-empty texts survive at positions 0 and 1. */
  lemma SurvivorsOfTwo(texts: seq<string>)
    requires |texts| == 2 && texts[0] != "" && texts[1] != ""
    ensures FieldCitations.Survivors(texts, 0) == [0, 1]
  {
    assert FieldCitations.Survivors(texts, 2) == [];
    assert FieldCitations.Survivors(texts, 1) == [1];
  }

  /** A single chunk with text yields exactly one piece, numbered from position 0. */
  lemma PiecesOfOne(c: Chunk, newline: string)
    requires Strip(c.text) != ""
    ensures FieldCitations.NumberedPieces([c], newline) == [FieldCitations.NumberedPiece(0, Strip(c.text), newline)]
  {
    SurvivorsOfOne(FieldCitations.StrippedTexts([c]));
    var pieces := FieldCitations.NumberedPieces([c], newline);
    SingletonOf(pieces);
  }

  /** A single chunk with text is numbered 1, whatever the line break. */
  lemma SingleChunkContext(c: Chunk, newline: string)
    requires Strip(c.text) != ""
    ensures FieldCitations.ChunkContext([c], newline) == "[CHUNK_1]" + newline + Strip(c.text)
  {
    PiecesOfOne(c, newline);
    FirstLabels(Strip(c.text), newline);
  }

  /** The label followed by either line break, spelled out. */
  lemma LabelledTexts(t: string)
    ensures "[CHUNK_1]" + Newline + t == "[CHUNK_1]\n" + t
    ensures "[CHUNK_1]" + FieldCitations.EscapedNewline + t == "[CHUNK_1]\\n" + t
  {
  }

  /** A real line break and an escaped one differ right after the label. */
  lemma LabelsDiffer(t: string)
    ensures "[CHUNK_1]\n" + t != "[CHUNK_1]\\n" + t
  {
    assert ("[CHUNK_1]\n" + t)[9] == '\n';
    assert ("[CHUNK_1]\\n" + t)[9] == '\\';
  }

  /** The two variants number a chunk the same way and differ only in the line break: a real
      newline here, the two characters backslash-n in the other. */
  lemma SeparatorsDiffer(c: Chunk)
    requires Strip(c.text) != ""
    ensures FieldCitations.ChunkContext([c], Newline) == "[CHUNK_1]\n" + Strip(c.text)
    ensures FieldCitations.ChunkContext([c], FieldCitations.EscapedNewline) == "[CHUNK_1]\\n" + Strip(c.text)
    ensures FieldCitations.ChunkContext([c], Newline) != FieldCitations.ChunkContext([c], FieldCitations.EscapedNewline)
  {
    SingleChunkContext(c, Newline);
    SingleChunkContext(c, FieldCitations.EscapedNewline);
    LabelledTexts(Strip(c.text));
    LabelsDiffer(Strip(c.text));
  }

  /** Two chunks with text yield two pieces, numbered from positions 0 and 1. */
  lemma PiecesOfTwo(a: Chunk, b: Chunk, newline: string)
    requires Strip(a.text) != "" && Strip(b.text) != ""
    ensures FieldCitations.NumberedPieces([a, b], newline)
         == [FieldCitations.NumberedPiece(0, Strip(a.text), newline), FieldCitations.NumberedPiece(1, Strip(b.text), newline)]
  {
    var chunks := [a, b];
    var texts := FieldCitations.StrippedTexts(chunks);
    assert texts[0] == Strip(a.text) && texts[1] == Strip(b.text);
    SurvivorsOfTwo(texts);
    var pieces := FieldCitations.NumberedPieces(chunks, newline);
    assert |pieces| == 2;
    assert pieces[0] == FieldCitations.NumberedPiece(0, Strip(a.text), newline);
    assert pieces[1] == FieldCitations.NumberedPiece(1, Strip(b.text), newline);
    PairOf(pieces);
  }

  /** Two pieces joined by a blank line. */
  lemma JoinTwoPieces(ta: string, tb: string)
    ensures Join([FieldCitations.NumberedPiece(0, ta, Newline), FieldCitations.NumberedPiece(1, tb, Newline)], Newline + Newline)
         == "[CHUNK_1]\n" + ta + "\n\n" + "[CHUNK_2]\n" + tb
  {
    FirstLabels(ta, Newline);
    FirstLabels(tb, Newline);
    var pieces := [FieldCitations.NumberedPiece(0, ta, Newline), FieldCitations.NumberedPiece(1, tb, Newline)];
    assert pieces[1..] == [pieces[1]];
  }

  /** Two chunks with text are separated by a blank line in this variant. */
  lemma TwoChunksBlankLine(a: Chunk, b: Chunk)
    requires Strip(a.text) != "" && Strip(b.text) != ""
    ensures FieldCitations.ChunkContext([a, b], Newline)
         == "[CHUNK_1]\n" + Strip(a.text) + "\n\n" + "[CHUNK_2]\n" + Strip(b.text)
  {
    PiecesOfTwo(a, b, Newline);
    JoinTwoPieces(Strip(a.text), Strip(b.text));
  }

  /** The enhanced step's answer and the generator after it. */
  datatype Enhanced = Enhanced(result: Option<FieldCitations.CitationResult>, generator: Generator)

  /** `_extract_with_enhanced_prompt` in this variant: override, prompt, call, parse, restore.
      `call` stands for `_call_llm_with_prompt` and `parse` for `_parse_field_citation_response`. */
  function ExtractWithEnhancedPrompt(g: Generator, chunks: seq<Chunk>, properties: seq<(string, Schema)>,
                                     temperature: Option<real>, maxTokens: Option<int>, hiddenTail: string,
                                     call: (Generator, string) -> Option<string>,
                                     parse: (string, seq<Chunk>) -> Option<FieldCitations.CitationResult>): (e: Enhanced)
    ensures e.generator == g
    ensures CreateFieldCitationPrompt(chunks, properties, hiddenTail).None? ==> e.result.None?
    ensures e.result.Some? ==>
      var prompt := CreateFieldCitationPrompt(chunks, properties, hiddenTail);
      prompt.Some? && call(WithOverrides(g, temperature, maxTokens), prompt.value).Some?
      && call(WithOverrides(g, temperature, maxTokens), prompt.value).value != ""
      && e.result == parse(call(WithOverrides(g, temperature, maxTokens), prompt.value).value, chunks)
    ensures
      var prompt := CreateFieldCitationPrompt(chunks, properties, hiddenTail);
      prompt.Some? && call(WithOverrides(g, temperature, maxTokens), prompt.value).Some?
      && call(WithOverrides(g, temperature, maxTokens), prompt.value).value != ""
      ==> e.result == parse(call(WithOverrides(g, temperature, maxTokens), prompt.value).value, chunks)
  {
    var during := WithOverrides(g, temperature, maxTokens);
    match CreateFieldCitationPrompt(chunks, properties, hiddenTail)
    case None => Enhanced(None, Restore(during, g))
    case Some(prompt) =>
      match call(during, prompt)
      case None => Enhanced(None, Restore(during, g))
      case Some(raw) =>
        if raw == "" then Enhanced(None, Restore(during, g))
        else Enhanced(parse(raw, chunks), Restore(during, g))
  }

  /** The extraction's answer, the generator after it, and the knowledge-base requests. */
  datatype ServiceExtraction = ServiceExtraction(result: Option<FieldCitations.CitationEnvelope>, generator: Generator,
                                   kbQueries: seq<KbQuery>)

  /** `extract_with_field_citations` in this variant: None only for an unknown schema or no chunks;
      after that the answer is always "success", with empty data and citations when the enhanced
      step fails. */
  function ExtractWithFieldCitations(svc: Services, g: Generator, documentId: string, schemaName: string,
                                     retrievalQuery: Option<string>, temperature: Option<real>,
                                     maxTokens: Option<int>, hiddenTail: string,
                                     call: (Generator, string) -> Option<string>,
                                     parse: (string, seq<Chunk>) -> Option<FieldCitations.CitationResult>): (x: ServiceExtraction)
    ensures x.generator == g
    ensures GetSchema(schemaName).None? ==> x == ServiceExtraction(None, g, [])
    ensures x.result.Some? <==>
      GetSchema(schemaName).Some?
      && RetrieveDocumentChunks(svc.retriever, svc.kb, documentId, BookingIdKey, retrievalQuery,
                                svc.numberOfRetrievalResults).chunks.Some?
    ensures x.result.Some? ==>
      RetrieveDocumentChunks(svc.retriever, svc.kb, documentId, BookingIdKey, retrievalQuery,
                             svc.numberOfRetrievalResults).chunks == Some(x.result.value.citations)
      && x.result.value.documentIdentifier == documentId && x.result.value.schemaUsed == schemaName
      && x.result.value.extractionStatus == "success"
    ensures x.result.Some? ==>
      var e := ExtractWithEnhancedPrompt(g, x.result.value.citations, GetSchema(schemaName).value.properties,
                                         temperature, maxTokens, hiddenTail, call, parse);
      x.result.value.extractedData == (if e.result.Some? then e.result.value.extractedData else EmptyObject)
      && x.result.value.fieldCitations == (if e.result.Some? then e.result.value.fieldCitations else map[])
  {
    match GetSchema(schemaName)
    case None => ServiceExtraction(None, g, [])
    case Some(schema) =>
      var retrieval := RetrieveDocumentChunks(svc.retriever, svc.kb, documentId, BookingIdKey,
                                              retrievalQuery, svc.numberOfRetrievalResults);
      match retrieval.chunks
      case None => ServiceExtraction(None, g, retrieval.issued)
      case Some(chunks) =>
        var e := ExtractWithEnhancedPrompt(g, chunks, schema.properties, temperature, maxTokens, hiddenTail, call, parse);
        var data := if e.result.Some? then e.result.value.extractedData else EmptyObject;
        var cited := if e.result.Some? then e.result.value.fieldCitations else map[];
        ServiceExtraction(Some(FieldCitations.CitationEnvelope(documentId, schemaName, data, "success", chunks, cited)),
                   e.generator, retrieval.issued)
  }

  /** When the enhanced step fails in both variants, the complete one answers None while this one
      answers "success" with empty `extracted_data` and `field_citations` and all retrieved chunks. */
  lemma FailureHandlingDiverges(svc: Services, g: Generator, documentId: string, schemaName: string,
                                retrievalQuery: Option<string>, temperature: Option<real>, maxTokens: Option<int>,
                                hiddenTail: string, call: (Generator, string) -> Option<string>,
                                parse: (string, seq<Chunk>) -> Option<FieldCitations.CitationResult>)
    requires GetSchema(schemaName).Some?
    requires RetrieveDocumentChunks(svc.retriever, svc.kb, documentId, BookingIdKey, retrievalQuery,
                                    svc.numberOfRetrievalResults).chunks.Some?
    requires FieldCitations.ExtractWithEnhancedPrompt(g,
               RetrieveDocumentChunks(svc.retriever, svc.kb, documentId, BookingIdKey, retrievalQuery,
                                      svc.numberOfRetrievalResults).chunks.value,
               GetSchema(schemaName).value.properties, temperature, maxTokens, svc.invoke, svc.loads).result.None?
    requires ExtractWithEnhancedPrompt(g,
               RetrieveDocumentChunks(svc.retriever, svc.kb, documentId, BookingIdKey, retrievalQuery,
                                      svc.numberOfRetrievalResults).chunks.value,
               GetSchema(schemaName).value.properties, temperature, maxTokens, hiddenTail, call, parse).result.None?
    ensures FieldCitations.ExtractWithFieldCitations(svc, g, documentId, schemaName, retrievalQuery,
                                                     temperature, maxTokens).result.None?
    ensures ExtractWithFieldCitations(svc, g, documentId, schemaName, retrievalQuery, temperature, maxTokens,
                                      hiddenTail, call, parse).result
         == Some(FieldCitations.CitationEnvelope(documentId, schemaName, EmptyObject, "success",
                   RetrieveDocumentChunks(svc.retriever, svc.kb, documentId, BookingIdKey, retrievalQuery,
                                          svc.numberOfRetrievalResults).chunks.value, map[]))
  {
  }
}
