# Loan onboarding API: a Dafny model of its extraction pipeline and helpers

This project models the core of a loan-document onboarding service. The centre is the
structured-extraction pipeline. It looks up a JSON schema by name and retrieves the document's
chunks from a Bedrock knowledge base. It then builds a prompt, invokes the model, and cleans,
parses and validates the reply. A field-citation variant also asks the model which chunks
support each field, and resolves the `CHUNK_<n>` tokens in the reply back to the retrieved
chunks. The repository has two versions of that variant (`field_level_extractor_complete.py`
and `field_level_extractor_service.py`), and both are modelled. Around the pipeline sit the
helpers the HTTP layer uses:

- the Texas Capital header, response and pagination builders;
- the product catalog and the customer summary;
- booking listing, document upload and document listing;
- the DynamoDB booking record, the sync-status update expression, and the direct-ingestion status check.

Every external service is a function-valued parameter. This covers:

- the knowledge-base `retrieve` call (`KbQuery -> KbOutcome`) and the model's `invoke_model` call;
- `json.loads`, `json.dumps(indent=2)` and `jsonschema.validate`;
- the S3 puts, the DynamoDB reads and writes, and the ingestion start.

The clock and the generated uuids are also parameters. Each operation returns, next to its
answer, the calls it issued (the knowledge-base queries, the model request bodies, the S3 keys
and the records written). This lets the contracts say what is never sent as well as what
is returned.

The generator's sampling parameters are overridden for one call and restored in `finally`. In
Python this happens by mutating a shared object. Here it is a value: every pipeline returns the
generator it ends with, and its contract states that this equals the one it was given.
`StructuredExtractor.ExtractorService` wraps this in a small class whose `Extract` method leaves
its `generator` field unchanged.

Files (one module each):

- Shared: `wrappers.dfy` (Option and Result), `strings.dfy` (Python `strip`, `split`, `join`, `int()`), `json.dfy` (JSON values and truthiness), `pydict.dfy` (insertion-ordered dict).
- Pipeline:
  - `schemas.dfy`: `api/models/schemas.py`;
  - `kb_retriever.dfy`: `utils/bedrock_kb_retriever.py`;
  - `llm_generator.dfy`: `services/bedrock_llm_generator.py`;
  - `structured_extractor.dfy`: `services/structured_extractor_service.py`;
  - `field_citations.dfy`: `services/field_level_extractor_complete.py`;
  - `field_citations_service.dfy`: `services/field_level_extractor_service.py`.
- Helpers:
  - `tc_standards.dfy`: `utils/tc_standards.py`;
  - `product_service.dfy`: `services/product_service.py`;
  - `loan_booking_management.dfy`: `services/loan_booking_management_service.py`;
  - `document_service.dfy`: `services/document_service.py`;
  - `aws_utils.dfy`: `utils/aws_utils.py`.

Where the repository's own tests disagree with the code, the model follows the code:

- `tests/test_product_routes.py:271-272` expects `get_product_s3_prefix` to return the bare
  product id. The code returns the catalog's `s3://loan-bucket/<id>/` location, and
  `ProductService.PrefixIsNotBareId` states that the two differ.
- `tests/test_aws_utils.py:266,287` use placeholder names other than `:sync_status`. The model
  uses the placeholders the code writes.

## Model

| member | source | states |
|---|---|---|
| Schemas.GetSchema | api/models/schemas.py:305-325 | A schema comes back exactly for "credit_agreement" and "loan_booking_sheet", and it is the constant registered under that name. Every other name, including case variants, gives None. |
| Schemas.RegistryNames | api/models/schemas.py:305-308 | The registry's keys are exactly the two schema names. |
| Schemas.CreditAgreementWellFormed | api/models/schemas.py:10-126 | Every name in the credit agreement's `required` list is a declared property. Every top-level property declares a type and a description. |
| Schemas.LoanBookingSheetWellFormed | api/models/schemas.py:128-302 | The booking sheet requires exactly maturity_date, total_loan_facility_amount, borrower_names, lender_type and governing_law. All five are declared, and every property is documented. |
| Schemas.RegisteredSchemasWellFormed | api/models/schemas.py:305-308 | Every schema in the registry declares what it requires and documents its properties. |
| Schemas.LenderPartyRequired | api/models/schemas.py:25-42 | The lender_parties item schema requires role and name, and declares both. |
| Schemas.NullableStringText | services/field_level_extractor_complete.py:149-150 | A list-valued type such as `["string", "null"]` is rendered into a field line as Python's list repr. |
| KbRetriever.NewRetriever | utils/bedrock_kb_retriever.py:17-27 | Construction fails exactly when the knowledge-base id is empty. Otherwise the retriever keeps the id. |
| KbRetriever.EffectiveQuery | utils/bedrock_kb_retriever.py:88 | A non-empty query text is used as given. A missing or empty one becomes "Information related to document ID <id>". |
| KbRetriever.RetrieveDocumentChunks | utils/bedrock_kb_retriever.py:42-128 | An empty id or metadata key issues no query and gives None. Otherwise the existence probe is issued first. The main query is issued if and only if the probe found something. Chunks come back if and only if the main query returned results, and then they are those results unchanged. |
| KbRetriever.IssuedQueriesFiltered | utils/bedrock_kb_retriever.py:57-111 | Every query issued targets the retriever's knowledge base and carries the filter `metadata_key == document_id`. |
| KbRetriever.RetrievalDependsOnTwoQueries | utils/bedrock_kb_retriever.py:57-128 | Two indexes that answer the probe and the main query alike give the same retrieval. Nothing else about the index matters. |
| LlmGenerator.NewGenerator | services/bedrock_llm_generator.py:17-34 | Construction fails exactly when the model id is empty. A new generator has no temperature, and its max tokens come from configuration, defaulting to 4000. |
| LlmGenerator.OverrideThenRestore | services/structured_extractor_service.py:173-196 | Restoring the saved parameters after an override gives back the original generator. Overriding with two absent values changes nothing. |
| LlmGenerator.ContextTexts | services/bedrock_llm_generator.py:64-67 | The texts kept for the context are non-empty. Each comes from some chunk, and every chunk with non-empty text contributes its text. |
| LlmGenerator.ContextTextsOne | services/bedrock_llm_generator.py:64-67 | One chunk contributes its text exactly when that text is non-empty. |
| LlmGenerator.ContextTextsAppend | services/bedrock_llm_generator.py:64-67 | The texts are kept in retrieval order: the texts of two runs of chunks are the first run's followed by the second's, with nothing reordered or repeated. |
| LlmGenerator.ContextEmptyIff | services/bedrock_llm_generator.py:64-71 | The joined and stripped context is empty if and only if no chunk has text, or exactly one does and it is all whitespace. |
| LlmGenerator.ContextOfTrimmedTexts | services/bedrock_llm_generator.py:64-67 | When every chunk text is already stripped, the context is exactly the texts joined by the "---" separator. |
| LlmGenerator.BlankChunksGiveDashes | services/bedrock_llm_generator.py:64-67 | Two whitespace-only chunks give the context "---", because the separator survives the strip. |
| LlmGenerator.ConstructPrompt | services/bedrock_llm_generator.py:47-106 | There is no prompt if and only if the chunk list is empty, the context is empty, or the schema cannot be serialised. Any prompt built is non-empty. |
| LlmGenerator.PromptEmbedsContextAndSchema | services/bedrock_llm_generator.py:73-103 | A built prompt starts with the instructions and `<document_context>` holding the context. It ends with `<json_schema>` holding the indented schema, followed by the closing instructions. |
| LlmGenerator.RequestBody | services/bedrock_llm_generator.py:129-138 | The request body always carries the anthropic version and max_tokens equal to the generator's setting. It carries "temperature" if and only if a temperature is set, with that value. It has no other keys besides "messages". |
| LlmGenerator.RequestBodyCarriesPrompt | services/bedrock_llm_generator.py:129-138 | The single user message of the body is the prompt. |
| LlmGenerator.FirstText | services/bedrock_llm_generator.py:156-166 | A text is read if and only if `content` is a non-empty list whose first block is an object with a non-empty string `text`. The text read is that string, stripped. |
| LlmGenerator.FirstTextOfTextResponse | services/bedrock_llm_generator.py:156-166 | A reply whose first content block has text t yields strip(t). An empty text yields None. |
| LlmGenerator.FirstTextRejects | services/bedrock_llm_generator.py:156-166 | A reply with no content, an empty content list, content that is not a list, or a body that is not an object yields None. |
| LlmGenerator.GenerateStructuredData | services/bedrock_llm_generator.py:108-183 | When the prompt cannot be built, no request is sent and there is no text. Otherwise exactly one request is sent, built from that prompt. The text is then the first text of the model's answer, or None when the call failed. |
| LlmGenerator.GenerationUsesParameters | services/bedrock_llm_generator.py:120-138 | Every request sent carries the generator's current parameters and the prompt built from the chunks and schema. |
| StructuredExtractor.CleanOutput | services/structured_extractor_service.py:71-77 | The cleaned output has no surrounding whitespace. |
| StructuredExtractor.CleanBare | services/structured_extractor_service.py:71-77 | An already-stripped `{...}` text cleans to itself. |
| StructuredExtractor.FencesDropped | services/structured_extractor_service.py:71-77 | A "```json" opening and a "```" closing are both removed. |
| StructuredExtractor.CleanFenced | services/structured_extractor_service.py:71-77 | A `{...}` text wrapped in a json fence with any whitespace around it cleans to exactly that text, the same as the unfenced text does. |
| StructuredExtractor.ParseAndValidate | services/structured_extractor_service.py:51-120 | Empty output gives None before any cleaning. The cleaned text reaches the parser if and only if it starts with `{` and ends with `}`. A value comes back if and only if it parses and also validates whenever a validator and a non-empty schema are present. That value is exactly the parser's result. |
| StructuredExtractor.ParseIgnoresFences | services/structured_extractor_service.py:65-110 | Parsing a fenced reply gives the same outcome as parsing the bare object text. |
| StructuredExtractor.NoValidationPassesThrough | services/structured_extractor_service.py:90-110 | Without a validator or without a schema, a gated reply's parse result is returned unchanged. |
| StructuredExtractor.ExtractFromDocument | services/structured_extractor_service.py:122-233 | The generator comes back unchanged on every path. An unknown schema issues no query and no request. Otherwise the queries issued are those of the retrieval. The extraction succeeds if and only if the schema is registered, chunks were retrieved, and the generated text is accepted: it is non-empty, its cleaned form passes the `{...}` gate and `json.loads`, the value is truthy, and it validates when a validator exists. A success is the envelope with the document id, the schema name, that loaded value and status "success". It came from one model request after both knowledge-base queries. |
| StructuredExtractor.ExtractWith | services/structured_extractor_service.py:151-233 | The pipeline given the schema lookup: no schema means no calls. Without chunks, no model request is sent. With chunks, the requests are those of generation under the overridden parameters. It succeeds if and only if there is a schema and chunks and the generated text is accepted, and the envelope carries the loaded value of that text. |
| StructuredExtractor.GenerateAndParse | services/structured_extractor_service.py:173-233 | The step succeeds if and only if the generated text is accepted: non-empty, its cleaned form passes the `{...}` gate and `json.loads`, the loaded value is truthy, and it is valid when a validator and a non-empty schema exist. A success is the envelope holding exactly that loaded value. The model requests are those of generation under the overrides, and the generator is returned unchanged. |
| StructuredExtractor.ExtractionQueriesFiltered | services/structured_extractor_service.py:159-169 | Every knowledge-base query the extraction issues is filtered on the booking-id key equal to the document id. |
| StructuredExtractor.ExtractionRequests | services/structured_extractor_service.py:173-200 | With a known schema and retrieved chunks, the model requests are exactly those generation sends for those chunks and that schema under the overridden parameters. |
| StructuredExtractor.ExtractionUsesOverrides | services/structured_extractor_service.py:173-196 | Every model request carries the per-call temperature and max tokens when given, and the generator's own values otherwise. |
| StructuredExtractor.ExtractionGeneratesOnce | services/structured_extractor_service.py:159-233 | With a known schema and chunks, extraction is exactly one generate-then-parse step over the retrieved chunks. |
| StructuredExtractor.ExtractionWithoutChunks | services/structured_extractor_service.py:165-169 | When retrieval finds nothing, no model request is sent and the result is None. |
| StructuredExtractor.SuccessComesFromReply | services/structured_extractor_service.py:198-216 | Once the prompt is sent and the model answers, the step succeeds if and only if the answer's first text is accepted. The extracted data is then what `json.loads` made of that text once cleaned. |
| StructuredExtractor.ExtractorService.Extract | services/structured_extractor_service.py:122-233 | The method leaves the service's generator as it found it and answers what the pipeline answers. It succeeds if and only if the schema is registered, chunks were retrieved and the generated text is accepted. |
| FieldCitations.Survivors | services/field_level_extractor_complete.py:134-138 | The numbered positions are exactly the chunks whose stripped text is non-empty, in increasing order. |
| FieldCitations.NumberedPieces | services/field_level_extractor_complete.py:134-138 | Each surviving chunk contributes one piece, labelled with its original index plus one. |
| FieldCitations.EveryTextIsNumbered | services/field_level_extractor_complete.py:134-138 | Every chunk with non-blank text appears in the context under the label CHUNK_<i+1>, whatever was skipped before it. |
| FieldCitations.BlankChunksAreSkipped | services/field_level_extractor_complete.py:134-141 | There are no pieces if and only if every chunk's stripped text is empty. |
| FieldCitations.FieldLines | services/field_level_extractor_complete.py:146-152 | There is one field line per schema property, in property order. |
| FieldCitations.FieldLineDefaults | services/field_level_extractor_complete.py:146-152 | A property with neither type nor description gets the line "- name (string): The name field". |
| FieldCitations.FieldLineOfTypeList | services/field_level_extractor_complete.py:146-152 | A nullable string property renders its type as `['string', 'null']`. |
| FieldCitations.CreateFieldCitationPrompt | services/field_level_extractor_complete.py:126-174 | There is no prompt if and only if every chunk is blank. A prompt is the intro, the numbered context joined by the two characters backslash and n, the middle text, then the field lines joined the same way, then the response-format tail. |
| FieldCitations.ChunkNumber | services/field_level_extractor_complete.py:235-240 | A token yields a number only if it starts with "CHUNK_". |
| FieldCitations.ResolveToken | services/field_level_extractor_complete.py:233-241 | A token resolves only if it is a string starting with "CHUNK_", and then only to one of the retrieved chunks. |
| FieldCitations.ResolveTokens | services/field_level_extractor_complete.py:233-241 | The resolved list is no longer than the token list and holds only retrieved chunks. |
| FieldCitations.ResolveReferences | services/field_level_extractor_complete.py:230-241 | A value that is not a list yields no citations. A list yields only retrieved chunks. |
| FieldCitations.ResolveTokensAppend | services/field_level_extractor_complete.py:233-241 | Resolution keeps token order. Resolving two lists joined is resolving each and joining the results. |
| FieldCitations.TokenResolvesToItsChunk | services/field_level_extractor_complete.py:235-239 | The label CHUNK_<i+1> resolves to exactly the chunk at position i. |
| FieldCitations.TokenOutOfRange | services/field_level_extractor_complete.py:237-238 | CHUNK_0 and any number past the last chunk are dropped. |
| FieldCitations.LabelNumber | services/field_level_extractor_complete.py:237 | The label built for number n reads back as n. The label and the resolver agree. |
| FieldCitations.LabelsResolveInOrder | services/field_level_extractor_complete.py:233-239 | A list of in-range labels resolves to exactly the chunks at those positions, in the same order, duplicates included. |
| FieldCitations.EveryTokenResolves | services/field_level_extractor_complete.py:233-239 | When every token resolves, the result is the resolved chunks in token order. |
| FieldCitations.NonLabelTokensDropped | services/field_level_extractor_complete.py:235 | Numbers and lower-case "chunk_1" are not labels and are dropped. |
| FieldCitations.NonNumericLabelDropped | services/field_level_extractor_complete.py:236-241 | "CHUNK_x" fails the integer parse and is dropped silently. |
| FieldCitations.CitationExample | services/field_level_extractor_complete.py:233-241 | With two chunks, the tokens [CHUNK_2, CHUNK_99, 1, CHUNK_2] resolve to [second, second]. |
| FieldCitations.ParseFieldCitationResponse | services/field_level_extractor_complete.py:207-255 | A result comes back if and only if the cleaned reply parses to an object whose field_citations, defaulting to {}, is an object. There is no `{...}` gate. extracted_data defaults to {}. The citations have exactly the reply's field names, each resolved from its token list. |
| FieldCitations.ReadCitations | services/field_level_extractor_complete.py:223-246 | From a parsed value: a result if and only if it is an object with an object field_citations. The data and per-field citations are as described above. |
| FieldCitations.CitedChunksAreRetrieved | services/field_level_extractor_complete.py:229-246 | Every chunk cited for any field is one of the retrieved chunks. |
| FieldCitations.EmptyObjectReply | services/field_level_extractor_complete.py:215-226 | The reply `{}` is accepted by the citation parser, with empty data and no citations. The structured extractor rejects the same reply, because `{}` is falsy. |
| FieldCitations.ReplyTextExtendsFirstText | services/field_level_extractor_complete.py:199-200 | The citation caller's reply reader agrees with the generator's on every non-empty text. An empty first text is returned as "" here but as None by the generator. |
| FieldCitations.CallLlmWithPrompt | services/field_level_extractor_complete.py:176-205 | Exactly one request is sent, built from the generator and the prompt. The text is the reply reader's result on the model's answer, or None when the call failed. |
| FieldCitations.AskForCitations | services/field_level_extractor_complete.py:117-121 | One request carrying the generator's parameters is sent. There is a result if and only if the reply text is non-empty and parses, and the result is that parse. It cites only the given chunks, and the generator is unchanged. |
| FieldCitations.AskSendsPrompt | services/field_level_extractor_complete.py:103-124 | The one request sent is built from the citation prompt. |
| FieldCitations.EnhancedWith | services/field_level_extractor_complete.py:93-124 | Without a prompt nothing is sent and there is no result. With one, exactly one request is sent: the body of that prompt under the overridden parameters. The result is that request's result, and the generator is restored. |
| FieldCitations.ExtractWithEnhancedPrompt | services/field_level_extractor_complete.py:93-124 | There is a result if and only if a prompt exists and the model's text for it, under the overrides, is non-empty and parses. The result is then that parse. When the prompt exists, exactly one request is sent: its body under the overrides. The generator is restored. |
| FieldCitations.CitationsComeFromReply | services/field_level_extractor_complete.py:93-124 | Once the prompt is sent and the model answers, the step succeeds if and only if the reply's text is non-empty and parses. The data and the citations are then that parse of the reply, and come from nowhere else. |
| FieldCitations.ExtractWithFieldCitations | services/field_level_extractor_complete.py:38-91 | An unknown schema issues nothing and gives None. The extraction succeeds if and only if the schema is known, chunks were retrieved and the enhanced step succeeds. The envelope then holds that step's data and field citations, status "success", the document and schema names, and all retrieved chunks as citations. The generator is unchanged. |
| FieldCitations.CitationsWith | services/field_level_extractor_complete.py:53-91 | The same pipeline given the schema lookup: no schema means no calls. The queries are those of the retrieval. It succeeds if and only if the enhanced step on the retrieved chunks does, with that step's data and field citations in the envelope. |
| FieldCitations.CiteChunks | services/field_level_extractor_complete.py:69-91 | It succeeds if and only if the enhanced step does. The envelope holds that step's data and field citations, and lists the retrieved chunks as citations. Every per-field citation is among them. |
| FieldCitationsService.CreateFieldCitationPrompt | services/field_level_extractor_service.py:148-206 | There is no prompt if and only if every chunk is blank. A prompt starts with the intro, the context joined by real blank lines, and the field lines joined by newlines. |
| FieldCitationsService.SeparatorsDiffer | services/field_level_extractor_service.py:160-169 | One chunk is labelled "[CHUNK_1]" and a real newline here, but a backslash and n in the complete variant. The two contexts differ. |
| FieldCitationsService.TwoChunksBlankLine | services/field_level_extractor_service.py:160-169 | Two chunks are separated by a blank line, each under its own label. |
| FieldCitationsService.ExtractWithEnhancedPrompt | services/field_level_extractor_service.py:105-146 | The generator is restored. Without a prompt there is no result. When the model returns a non-empty text for the prompt under the overridden parameters, the result is the parse of that text. Any result comes that way. |
| FieldCitationsService.ExtractWithFieldCitations | services/field_level_extractor_service.py:38-103 | An unknown schema issues nothing. A result exists if and only if the schema is known and chunks were retrieved. It always has status "success" and lists the retrieved chunks. Its data and field citations are the enhanced step's, or {} and {} when that step fails. |
| FieldCitationsService.FailureHandlingDiverges | services/field_level_extractor_service.py:84-103 | When enhanced extraction fails in both variants, the complete variant gives None. This variant gives "success" with empty data and no citations. |
| TcStandards.FromFastapiHeaders | utils/tc_standards.py:53-80 | Every header is copied unchanged, except that a missing or empty timestamp is replaced by the current time followed by "Z". The result always carries a timestamp. |
| TcStandards.HeadersRebuildStable | utils/tc_standards.py:69-80 | Rebuilding headers from built headers at a later time changes nothing. |
| TcStandards.ToLogExtra | utils/tc_standards.py:82-95 | The log extra holds only the five tracking keys, each with its header's value. It holds every such key whose header is present, never the timestamp or the API key, and no key twice. |
| TcStandards.LogExtraIff | utils/tc_standards.py:82-95 | A tracking key is in the log extra if and only if its header is present, and then it has that header's value. |
| TcStandards.TrackingIffLogged | utils/tc_standards.py:82-99 | Headers count as tracking if and only if their log extra carries a request id or a correlation id. |
| TcStandards.Success | utils/tc_standards.py:186-219 | The details start with "timestamp". Each key reads as the data's value, overridden by the request id when that header is present, and the timestamp otherwise. A request id not in the data comes last. |
| TcStandards.SuccessDetails | utils/tc_standards.py:204-213 | The same three facts about the details dict built step by step from the timestamp, the data update and the request-id write. |
| TcStandards.Error | utils/tc_standards.py:222-252 | The trace id is the correlation id, or None without headers. Details default to the empty list. The code, message, timestamp, service name and version are carried through. |
| TcStandards.ErrorWithDefaults | utils/tc_standards.py:222-252 | The defaults are service "loan-onboarding-api" and version "v1". |
| TcStandards.ErrorTraceFollowsTracking | utils/tc_standards.py:222-252 | Tracking headers without a request id always give an error that carries a trace id. |
| TcStandards.ValidateOffsetPagination | utils/tc_standards.py:264-284 | Validation passes if and only if offset >= 0 and 1 <= limit <= 100, and then returns both unchanged. A negative offset reports the offset message first. Otherwise a bad limit reports the limit message. |
| TcStandards.OffsetPageStable | utils/tc_standards.py:278-284 | Validating an accepted page again accepts it unchanged. |
| TcStandards.ValidateCursorPagination | utils/tc_standards.py:287-303 | A cursor is accepted if and only if it is not all whitespace, and the accepted value is the cursor stripped of surrounding whitespace. Any other cursor gives the "Cursor is required" error. |
| TcStandards.CursorStable | utils/tc_standards.py:300-303 | Validating an accepted cursor again returns the same cursor. |
| TcStandards.CursorIgnoresPadding | utils/tc_standards.py:300-303 | A non-empty stripped cursor with whitespace around it validates to the cursor itself. |
| PyDict.GetUpdate | utils/tc_standards.py:208-209 | After `d.update(e)`, a key of e reads its last value in e, and any other key reads as in d. |
| PyDict.KeysUpdatePrefix | utils/tc_standards.py:204-209 | An update keeps the existing keys first, in their order. |
| PyDict.GetSet | services/product_service.py:251 | After `d[k] = v`, k reads v and every other key is unchanged. |
| Strings.Strip | utils/tc_standards.py:300-303 | `strip()` leaves no whitespace at either end, and its result is empty if and only if the text is all whitespace. |
| Strings.StripIdempotent | utils/tc_standards.py:303 | Stripping twice is stripping once. |
| Strings.JoinSplit | utils/aws_utils.py:119 | Joining the pieces of `s.split(c)` with c gives back s. |
| Strings.SplitJoin | services/loan_booking_management_service.py:420 | Splitting a join of non-empty, comma-free pieces gives back the pieces. |
| ProductService.CatalogProduct | services/product_service.py:40-71 | A catalog entry's location is under "s3://loan-bucket/" and ends with "<id>/". |
| ProductService.CatalogIdsDistinct | services/product_service.py:40-71 | The catalog has six products with pairwise distinct ids. |
| ProductService.FirstLocation | services/product_service.py:265-268 | A location is found if and only if some product has the id, and it is the location of the first such product. |
| ProductService.GetProductS3Prefix | services/product_service.py:263-268 | A prefix exists exactly for the catalog ids, and it is that product's own S3 folder. |
| ProductService.TermLoansPrefix | services/product_service.py:263-268 | "term-loans" gives "s3://loan-bucket/term-loans/". The near miss "term-loan" gives None. |
| ProductService.PrefixIsNotBareId | services/product_service.py:263-268 | The prefix returned is never the bare product id. It is always 18 characters longer. |
| ProductService.ToCustomer | services/product_service.py:175-190 | An item converts if and only if it passes CustomerBooking validation: its document ids are a list or missing, and its metadata is an object, null or missing. A comma-joined id text is rejected. A converted item copies the id, name, product, location, document ids, timestamp and metadata. Missing texts become "", missing document ids become [], missing metadata becomes {}, and a missing timestamp stays missing. An item without a status gets "pending", and one with a status keeps it. |
| ProductService.ToCustomers | services/product_service.py:174-190 | The items that pass validation, converted, in scan order; the others are skipped. The contract bounds the list by the items, and the lemmas below fix its contents and order. |
| ProductService.CustomersComeFromItems | services/product_service.py:175-190 | Every listed customer is the conversion of some scanned item. |
| ProductService.AllValidConvert | services/product_service.py:175-190 | When every item passes validation, items convert one to one, in order. |
| ProductService.ToCustomersOne | services/product_service.py:175-190 | One item gives its conversion, or nothing when validation rejects it. |
| ProductService.ToCustomersAppend | services/product_service.py:175-190 | The list of two runs of items is the first run's customers followed by the second's, so scan order is kept. |
| ProductService.JoinedIdsAreSkipped | services/product_service.py:175-190 | An item whose documentIds is a text, such as the comma-joined ids uploads store, is left out of the list. |
| ProductService.MissingStatusIsPending | services/product_service.py:175-190 | The number of "pending" customers is the number of items that pass validation and whose status is missing or "pending". |
| ProductService.SumValuesSet | services/product_service.py:251 | Writing a count changes the total by the difference between the new and old values. |
| ProductService.CountStatus | services/product_service.py:248-251 | One loop step keeps the breakdown invariant: each status maps to its count so far, keys are distinct, and the counts sum to the number of customers seen. |
| ProductService.GenerateCustomerSummary | services/product_service.py:243-261 | The total customers is the list's length. The breakdown maps exactly the occurring statuses to their counts, has no repeated key, and sums to the number of customers. The document total is the sum of id counts. The average is 0 when there are no customers and total/count otherwise. |
| LoanBookingManagement.ProductValuesDistinct | api/models/loan_booking_management_models.py:23-30 | Distinct product types upload into distinct folders. |
| LoanBookingManagement.ProductFromValue | api/models/loan_booking_management_models.py:23-30 | A text validates to a product type exactly when it is that type's value; any other text is rejected. |
| LoanBookingManagement.ProductValueRoundTrip | api/models/loan_booking_management_models.py:23-30 | Every product type's value validates back to that type. |
| LoanBookingManagement.StoredIds | services/loan_booking_management_service.py:272 | Stored ids are non-empty if and only if the attribute is truthy. There is one per comma plus one, and none contains a comma. |
| LoanBookingManagement.DocCount | services/loan_booking_management_service.py:72 | The document count is 0 if and only if the ids attribute is missing or empty. Otherwise it is the number of commas plus one. |
| LoanBookingManagement.StoredIdsOfJoined | services/loan_booking_management_service.py:420 | Comma-free ids saved joined by ',' are read back as the same list, so the count a listing shows is the number saved. |
| LoanBookingManagement.ToBookingInfo | services/loan_booking_management_service.py:70-83 | An item converts if and only if its documentIds is not a non-empty list, on which `split` raises, and its product_name is one of the six product values; a missing one is "", which is not. A converted item copies the booking id, customer name and creation time, with "" when missing. It copies the sync flag with False when missing, and the sync time as it is. The product type is the member with the stored value, and the document count is the number of stored ids. |
| LoanBookingManagement.Slice | services/loan_booking_management_service.py:85-88 | Python slicing: bounds are clamped, negative ones count from the end, and the elements are those between the bounds, in order. |
| LoanBookingManagement.GetAllLoanBookings | services/loan_booking_management_service.py:63-100 | The listing fails if and only if some scanned item, inside the page or not, does not convert. Otherwise the page has min(limit, max(0, n - offset)) bookings, and the k-th is the conversion of the (offset + k)-th scanned item. |
| LoanBookingManagement.ConsecutivePages | services/loan_booking_management_service.py:70-88 | Both pages exist exactly when every item converts. Then two consecutive pages of size l are the page of size 2l. |
| LoanBookingManagement.UnknownProductFailsListing | services/loan_booking_management_service.py:70-100 | One item with a missing or unknown product name makes the whole listing fail, whatever the page. |
| LoanBookingManagement.NewIds | services/loan_booking_management_service.py:151-154 | One fresh id per file, in file order. |
| LoanBookingManagement.FirstFailedPut | services/loan_booking_management_service.py:151-200 | Finds the first file whose S3 put fails; every earlier put succeeded. |
| LoanBookingManagement.UploadDocuments | services/loan_booking_management_service.py:102-235 | An existing booking whose ids are a non-empty list fails before anything is put, because `split` raises on it. Otherwise no files is an error with no effects. An upload succeeds if and only if every put and the record write succeed. The puts stop at the first failure: the error names that file, its put failed and every earlier put succeeded, and any failing put makes the upload fail this way. The saved record reuses the existing booking's id or makes "lb_"+hex. It joins the old ids and the new ones, records the last file's key, the product, the customer and the time, and starts unsynced. One entry per file with its S3 URI. Ingestion is requested only on success when asked: one request with one document per file, carrying its URI, the booking id, the product, the fresh id and the customer. The job id reported is what the trigger returned, and it counts as triggered only when that id is truthy. |
| LoanBookingManagement.UploadAppendsIds | services/loan_booking_management_service.py:141-206 | Read back after an upload, the booking lists exactly its earlier ids followed by one fresh id per file, and its count grows by the number of files. |
| LoanBookingManagement.IngestionGate | services/loan_booking_management_service.py:208-230 | A trigger that fails leaves the upload successful but not triggered and without a job id. The request is made if and only if ingestion was asked for. |
| LoanBookingManagement.NonBlank | services/loan_booking_management_service.py:276-277 | Only non-blank ids are kept, and every non-blank id is kept. |
| LoanBookingManagement.NonBlankOne | services/loan_booking_management_service.py:276-277 | One id is kept exactly when it is not blank. |
| LoanBookingManagement.NonBlankAppend | services/loan_booking_management_service.py:275-277 | The ids kept from two runs are the first run's followed by the second's, so order and repeats are kept. |
| LoanBookingManagement.GetLoanBookingDocuments | services/loan_booking_management_service.py:237-302 | An unknown booking fails with the not-found message and looks nothing up. A booking whose ids are a non-empty list fails with the AttributeError text of `split` and looks nothing up. Otherwise exactly the non-blank stored ids are looked up, in order. The documents are the truthy metadata those lookups found, in id order, and the total is their number. The customer, product and sync fields come from the first item. |
| LoanBookingManagement.FoundOne | services/loan_booking_management_service.py:276-279 | One id contributes its metadata exactly when the lookup finds a truthy value. |
| LoanBookingManagement.FoundAppend | services/loan_booking_management_service.py:276-279 | Lookups keep id order: the documents of two runs of ids are the first run's followed by the second's. |
| LoanBookingManagement.SavedRecordFailsListing | services/loan_booking_management_service.py:267-272 | A booking whose ids were stored as the list `save_booking_db` writes cannot be listed: both the documents listing and the booking list fail on it. |
| LoanBookingManagement.BlankIdsSkipped | services/loan_booking_management_service.py:272-280 | The stored ids ",a" look up only "a". |
| DocumentService.NormalizeIds | services/document_service.py:120-125 | A string of ids becomes a one-element list, a list stays as it is, and a missing attribute gives []. |
| DocumentService.FileName | services/document_service.py:129 | With a location, the file name is the part after its last slash: the whole location when there is no slash, and otherwise a slash-free text that the location ends with, right after a slash. Without a location it is "document_<id>". |
| DocumentService.FileNameInFolder | services/document_service.py:129 | The file name of "folder/name" is name. |
| DocumentService.Entry | services/document_service.py:132-146 | An entry carries the document id, the booking id, the item's location and the derived file name. It also copies the product and customer names with "" defaults and the timestamp as the upload date. It copies the sync flag as is_synced with False as the default, and the sync time, ingestion job id and sync error as they are. The two booking-sheet flags default to False. |
| DocumentService.ItemDocuments | services/document_service.py:118-152 | An item outside the folder contributes nothing. Otherwise it contributes one entry per normalised id, in id order. |
| DocumentService.DocumentsOne | services/document_service.py:118-152 | A single item lists exactly its own entries. |
| DocumentService.DocumentsAppend | services/document_service.py:118-152 | Flattening keeps item order: the listing of two item lists joined is the two listings joined. |
| DocumentService.DocumentsCount | services/document_service.py:118-161 | The listing has one entry per id of every kept item. Every entry is kept by the folder filter and carries the booking id. |
| DocumentService.GetDocumentsByLoanBookingId | services/document_service.py:96-165 | The documents are the entries of every item, in item order and then id order, and the request's booking id and folder are echoed. The total is the number of entries, which is the number of kept ids. The message reports that number. With a folder, every entry's location starts with it. |
| DocumentService.JoinedIdsStayWhole | services/document_service.py:120-129 | A comma-joined id string stored by an upload is listed as one document whose id contains the comma. |
| AwsUtils.StoredIds | utils/aws_utils.py:119 | The stored ids are the comma pieces of the given id, or the id itself when it has no comma. No piece contains a comma. |
| AwsUtils.NewRecord | utils/aws_utils.py:108-133 | A new record stores the ids as the comma split of the given text, which joins back to the input. It starts with the booking sheet ungenerated and uncreated, unsynced, and with no sheet date and no sync error. |
| AwsUtils.NewRecordKeepsIds | utils/aws_utils.py:119 | A record made from the comma-join of comma-free ids stores exactly those ids. |
| AwsUtils.SaveBookingDb | utils/aws_utils.py:88-133 | The record written is the new record. Saving succeeds if and only if the write succeeds. |
| AwsUtils.SavedIdsRoundTrip | utils/aws_utils.py:119 | Comma-free ids joined by ',' are stored as the same list. |
| AwsUtils.SyncUpdateFor | utils/aws_utils.py:159-185 | The status is always set first. The job id is set if and only if given. syncCompletedAt is always set, to the given value or to now. syncError is set if and only if given, and removed if and only if it is absent and the sync completed. No placeholder repeats. |
| AwsUtils.UpdateBookingSyncStatus | utils/aws_utils.py:135-210 | With no record, it returns False and issues no update. Otherwise one update is issued on the latest record's key, with the expression and values of the sync update, and the result is that update's outcome. |
| AwsUtils.BuildStartsWithStatus | utils/aws_utils.py:159-162 | Every expression starts with "SET isSyncCompleted = :sync_status". |
| AwsUtils.BuildRendersUpdate | utils/aws_utils.py:159-185 | The text the code concatenates equals the rendering of the assignments and removals listed above. |
| AwsUtils.FailedSyncKeepsError | utils/aws_utils.py:180-185 | A failed sync without an error neither sets nor removes syncError. |
| AwsUtils.Classify | utils/aws_utils.py:590-627 | COMPLETE is success. FAILED and STOPPED are failures carrying their status. Anything else, including a failed poll, keeps waiting. |
| AwsUtils.FirstDecisive | utils/aws_utils.py:572-627 | The first poll that is not "keep waiting", with every earlier one waiting. None if all wait. |
| AwsUtils.WaitForDirectIngestion | utils/aws_utils.py:553-638 | The wait succeeds if and only if the first decisive poll is COMPLETE. The sync status is written if and only if a booking id was given. On COMPLETE it records success, the job id and the job's updatedAt. On FAILED or STOPPED it records the job id and the error "Ingestion job <status>: <reasons>". A timeout records "Direct ingestion timeout after N seconds". |
| AwsUtils.LaterPollsIgnored | utils/aws_utils.py:572-627 | Polls after the first decisive one never change the outcome. |
| AwsUtils.FirstDecisiveExtends | utils/aws_utils.py:572-627 | Appending polls does not move a decision already reached. |

## Left out

- Calls to S3, DynamoDB, bedrock-agent, bedrock-agent-runtime and bedrock-runtime: these are outside services, so they are parameters. Where the service catches a raising call, the parameter's result carries the outcome: None, False or an absent outcome.
- The table reads of `get_all_loan_bookings`, `get_loan_booking_documents` and `get_documents_by_loan_booking_id` are given as the items they returned. A read that raises makes those functions raise (for instance the HTTP 500 at services/document_service.py:163-165), and that path is not modelled.
- `json.loads`, `json.dumps` and `jsonschema.validate`: these are library code, so they are parameters. The only schema content modelled concretely is the `required` lists and the property declarations.
- Concurrency: the save, override and restore of the shared generator is modelled sequentially. Only the restore is stated.
- Sleeps, timeouts and wall-clock polling in `wait_for_direct_ingestion`: the wait is modelled over the sequence of status checks it makes. Only the status classification and the first decisive check are stated.
- FieldCitations.ChunkNumber: `int()` is modelled over the ASCII digits 0-9 only. Python also accepts other Unicode decimal digits, so a token such as "CHUNK_３" would cite chunk 3 in the program but is dropped here.
- AwsUtils.WaitForDirectIngestion: the outer exception path (utils/aws_utils.py:640-651) is not modelled, because it only wraps I/O failures.
- Temperature: it is kept as an opaque real.
- ProductService.GenerateCustomerSummary: the average is not rounded to two decimals, because float rounding is not modelled. The contract states the exact quotient instead.
- The clock and the uuids: timestamps, `isoformat()` strings, "lb_" hex suffixes and document ids are parameters.
- AwsUtils.UpdateBookingSyncStatus: a `datetime` sync time is taken as its already-formatted text.
- `field_level_extractor_service.py` ends inside the prompt literal at line 206. Its remaining template text, its model call and its reply parser are parameters of that module.
- Logging (`TCLogger`, `logger`) is not modelled.
- Route modules are not modelled.
- `get_all_products` and `get_customers_by_product`'s response wrapping are not modelled. Only the conversion of items and the summary are.
- `get_document_by_id`, `_get_document_metadata_by_id` and `_get_existing_booking` are lookups, so they are parameters.
- The other `aws_utils.py` functions are not modelled.
- `StructuredExtractorServiceAsync` and the disabled `save_json_to_dynamodb` are not modelled.
- The boarding-sheet service is not modelled.
- Pydantic models other than the schema constants, `LoanBookingInfo` and `CustomerBooking` are not modelled.
- LoanBookingManagement.GetAllLoanBookings: a rejected item is modelled as a failed listing (None). The text of the raised "Failed to retrieve loan bookings: ..." message is not, because it holds Pydantic's error text. Text attributes are taken to be strings.
- ProductService.ToCustomers: only the `document_ids` and `metadata` checks of `CustomerBooking` validation are modelled. Text attributes are taken to be strings and the timestamp an integer, so Pydantic rejections of other stored types are not represented.
- LlmGenerator.BlankChunksGiveDashes: two or more whitespace-only chunks give the context "---" and a prompt is built. This is modelled as written.
- DocumentService.JoinedIdsStayWhole: the comma-joined `documentIds` that uploads store is listed as one id by `get_documents_by_loan_booking_id`. This is modelled as written.
- The tests' expectation of a bare product id (tests/test_product_routes.py:271-272) and their other placeholder names (tests/test_aws_utils.py:266,287) are not followed. The model follows the code.
