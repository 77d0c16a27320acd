/**
 * The model-invocation side of extraction (services/bedrock_llm_generator.py):
 * generator parameters, the extraction prompt, the request body and the
 * reading of the model's reply. `json.dumps` of the schema and the runtime's
 * `invoke_model` are oracles.
 */
module LlmGenerator {
  import opened Wrappers
  import opened Strings
  import opened Json
  import opened Schemas
  import opened KbRetriever

  /** The generator's state: model id and the two sampling parameters
      (`temperature` is None until someone sets it). */
  datatype Generator = Generator(modelId: string, temperature: Option<real>, maxTokensToSample: int)

  /** The result of one generation: the reply text, and the request bodies sent to the model. */
  datatype Generation = Generation(text: Option<string>, requests: seq<Json>)

  /** `MAX_TOKENS_TO_SAMPLE` when the configuration does not define one. */
  const DefaultMaxTokens: int := 4000

  /** The constructor: an empty model id raises; sampling starts at the model's default
      temperature and the configured (or default) token budget. */
  function NewGenerator(modelId: string, configuredMaxTokens: Option<int>): (r: Result<Generator, string>)
    ensures r.Ok? <==> modelId != ""
    ensures r.Ok? ==> r.value.modelId == modelId && r.value.temperature.None?
    ensures r.Ok? && configuredMaxTokens.None? ==> r.value.maxTokensToSample == 4000
    ensures r.Ok? && configuredMaxTokens.Some? ==> r.value.maxTokensToSample == configuredMaxTokens.value
  {
    if modelId == "" then Err("Generation Model ID (GENERATION_MODEL_ID) is not configured properly.")
    else Ok(Generator(modelId, None, configuredMaxTokens.GetOr(DefaultMaxTokens)))
  }

  /** A per-request override: each parameter is replaced only when its argument is not None. */
  function WithOverrides(g: Generator, temperature: Option<real>, maxTokens: Option<int>): Generator {
    g.(temperature := if temperature.Some? then temperature else g.temperature,
       maxTokensToSample := if maxTokens.Some? then maxTokens.value else g.maxTokensToSample)
  }

  /** The `finally` block: put back the two parameters saved before the override. */
  function Restore(current: Generator, saved: Generator): Generator {
    current.(temperature := saved.temperature, maxTokensToSample := saved.maxTokensToSample)
  }

  /** Restoring after any override gives back the generator as it was. */
  lemma OverrideThenRestore(g: Generator, temperature: Option<real>, maxTokens: Option<int>)
    ensures Restore(WithOverrides(g, temperature, maxTokens), g) == g
    ensures WithOverrides(g, None, None) == g
  {
  }

  /** The separator placed between chunk texts in the context. */
  const ContextSeparator: string := "\n\n---\n\n"

  /** The chunk texts that are present and non-empty, in retrieval order. */
  function ContextTexts(chunks: seq<Chunk>): (texts: seq<string>)
    ensures |texts| <= |chunks|
    ensures forall k :: 0 <= k < |texts| ==> texts[k] != ""
    ensures forall i :: 0 <= i < |chunks| && chunks[i].text != "" ==> chunks[i].text in texts
    ensures forall t :: t in texts ==> exists i :: 0 <= i < |chunks| && chunks[i].text == t
  {
    if |chunks| == 0 then []
    else
      var rest := ContextTexts(chunks[1..]);
      assert forall t :: t in rest ==> exists i :: 0 <= i < |chunks| && chunks[i].text == t by {
        forall t | t in rest ensures exists i :: 0 <= i < |chunks| && chunks[i].text == t {
          var j :| 0 <= j < |chunks[1..]| && chunks[1..][j].text == t;
          assert chunks[j + 1].text == t;
        }
      }
      assert forall i :: 1 <= i < |chunks| && chunks[i].text != "" ==> chunks[i].text in rest by {
        forall i | 1 <= i < |chunks| && chunks[i].text != "" ensures chunks[i].text in rest {
          assert chunks[1..][i - 1] == chunks[i];
        }
      }
      if chunks[0].text != "" then [chunks[0].text] + rest else rest
  }

  /** A single chunk contributes its text exactly when the text is non-empty. */
  lemma ContextTextsOne(c: Chunk)
    ensures ContextTexts([c]) == (if c.text != "" then [c.text] else [])
  {
    assert [c][1..] == [];
  }

  /** The texts are taken in retrieval order: the texts of a concatenation are the texts of the
      first part followed by those of the second, so nothing is reordered, merged or repeated. */
  lemma {:induction false} ContextTextsAppend(a: seq<Chunk>, b: seq<Chunk>)
    ensures ContextTexts(a + b) == ContextTexts(a) + ContextTexts(b)
    decreases |a|
  {
    if |a| > 0 {
      assert (a + b)[0] == a[0];
      assert (a + b)[1..] == a[1..] + b;
      ContextTextsAppend(a[1..], b);
    } else {
      assert a + b == b;
    }
  }

  /** The document context: the texts joined by the separator, then stripped. */
  function Context(chunks: seq<Chunk>): string {
    Strip(Join(ContextTexts(chunks), ContextSeparator))
  }

  /** Two or more pieces joined by the separator are never all whitespace. */
  lemma JoinedNotBlank(texts: seq<string>)
    requires |texts| >= 2
    ensures !AllSpace(Join(texts, ContextSeparator))
  {
    var j := Join(texts, ContextSeparator);
    assert j == texts[0] + ContextSeparator + Join(texts[1..], ContextSeparator);
    assert j[|texts[0]| + 2] == '-';
  }

  /** The context is empty exactly when no chunk has text, or when exactly one does and it is
      whitespace only; two or more texts always leave at least the separator's dashes. */
  lemma ContextEmptyIff(chunks: seq<Chunk>)
    ensures Context(chunks) == "" <==>
      |ContextTexts(chunks)| == 0 || (|ContextTexts(chunks)| == 1 && AllSpace(ContextTexts(chunks)[0]))
  {
    var texts := ContextTexts(chunks);
    if |texts| >= 2 {
      JoinedNotBlank(texts);
    }
  }

  /** When every present text is already free of surrounding whitespace, the context is exactly
      the texts joined by the separator. */
  lemma ContextOfTrimmedTexts(chunks: seq<Chunk>)
    requires forall i :: 0 <= i < |chunks| ==> Trimmed(chunks[i].text)
    ensures Context(chunks) == Join(ContextTexts(chunks), ContextSeparator)
  {
    var texts := ContextTexts(chunks);
    forall k | 0 <= k < |texts| ensures texts[k] != "" && Trimmed(texts[k]) {
      assert texts[k] in texts;
      var i :| 0 <= i < |chunks| && chunks[i].text == texts[k];
    }
    JoinTrimmed(texts, ContextSeparator);
    StripTrimmed(Join(texts, ContextSeparator));
  }

  /** Two whitespace-only chunk texts give the context "---": the separator survives `strip()`. */
  lemma BlankChunksGiveDashes(location: Json, metadata: Json, score: Json)
    ensures Context([Chunk(" ", location, metadata, score), Chunk(" ", location, metadata, score)]) == "---"
  {
    var chunks := [Chunk(" ", location, metadata, score), Chunk(" ", location, metadata, score)];
    assert ContextTexts(chunks[1..]) == [" "];
    assert ContextTexts(chunks) == [" ", " "];
    assert Join([" ", " "], ContextSeparator) == " \n\n" + "---" + "\n\n ";
    StripSurrounded(" \n\n", "---", "\n\n ");
  }

  /** The fixed introduction that opens the extraction prompt. */
  const PromptIntro: string :=
    "Human: You are an expert data extraction system. Your task is to analyze the provided text context, which comes from a single document identified by its ID, and extract information precisely according to the requested JSON schema.\n\n"

  /** The numbered instructions between the context and the schema. */
  const PromptInstructions: string :=
    "\n\nStrictly adhere to the following instructions for your response:\n1.  Extract information *only* from the text provided in `<document_context>`. Do not infer, guess, or add information not explicitly present in the text.\n2.  Your *entire* response must be a single, valid JSON object.\n3.  The JSON object must conform *exactly* to the structure and data types defined in the `<json_schema>` below. Ensure all required fields specified in the schema are present in your JSON output.\n4.  If a specific piece of information required by the schema is not found in the context, use the JSON value `null` for that field's value. Do *not* omit the field itself if it's defined in the schema properties.\n5.  Pay close attention to data types specified in the schema (string, number, integer, boolean, array, object) and format the extracted values accordingly. For fields specified as `number` or `integer`, provide only the numeric value without currency symbols, commas, or units, if possible based on the text. For dates (type `string`), use YYYY-MM-DD format if the text allows, otherwise use the format present in the text.\n6.  Do not include *any* text, explanations, apologies, or introductory phrases before or after the JSON object. Your response must start *immediately* with `{` and end *exactly* with `}`. Do not wrap the JSON in markdown code fences (```json ... ```).\n\n"

  /** The closing line after the schema. */
  const PromptTail: string :=
    "\n</json_schema>\n\nBased *only* on the provided `<document_context>` and adhering strictly to all instructions above, generate the JSON object conforming to the `<json_schema>`."

  /** `_construct_prompt`: None for no chunks, for an empty context or when the schema
      cannot be serialised; otherwise the instructions around the context and the schema. */
  function ConstructPrompt(chunks: seq<Chunk>, schema: Schema, dumpsIndent2: Schema -> Option<string>): (p: Option<string>)
    ensures p.None? <==> |chunks| == 0 || Context(chunks) == "" || dumpsIndent2(schema).None?
    ensures p.Some? ==> p.value != ""
  {
    if |chunks| == 0 then None
    else
      var context := Context(chunks);
      if context == "" then None
      else match dumpsIndent2(schema)
        case None => None
        case Some(schemaText) => Some(PromptText(context, schemaText))
  }

  /** The prompt template filled with a context and a serialised schema. */
  function PromptText(context: string, schemaText: string): string {
    PromptIntro + "<document_context>\n" + context + "\n</document_context>"
    + PromptInstructions + "<json_schema>\n" + schemaText + PromptTail
  }

  lemma ConcatEnds(front: string, middle: string, back: string)
    ensures StartsWith(front + middle + back, front)
    ensures EndsWith(front + middle + back, back)
  {
    assert (front + middle + back)[..|front|] == front;
    assert (front + middle + back)[|front + middle|..] == back;
  }

  /** The prompt carries the context inside `<document_context>` right after the fixed
      introduction, and the serialised schema inside `<json_schema>` right before the closing line. */
  lemma PromptEmbedsContextAndSchema(chunks: seq<Chunk>, schema: Schema, dumpsIndent2: Schema -> Option<string>)
    requires ConstructPrompt(chunks, schema, dumpsIndent2).Some?
    ensures StartsWith(ConstructPrompt(chunks, schema, dumpsIndent2).value,
                       PromptIntro + "<document_context>\n" + Context(chunks) + "\n</document_context>")
    ensures EndsWith(ConstructPrompt(chunks, schema, dumpsIndent2).value,
                     "<json_schema>\n" + dumpsIndent2(schema).value + PromptTail)
  {
    var context := Context(chunks);
    var schemaText := dumpsIndent2(schema).value;
    assert ConstructPrompt(chunks, schema, dumpsIndent2).value == PromptText(context, schemaText);
    PromptTextParts(context, schemaText);
  }

  lemma PromptTextParts(context: string, schemaText: string)
    ensures StartsWith(PromptText(context, schemaText),
                       PromptIntro + "<document_context>\n" + context + "\n</document_context>")
    ensures EndsWith(PromptText(context, schemaText), "<json_schema>\n" + schemaText + PromptTail)
  {
    var front := PromptIntro + "<document_context>\n" + context + "\n</document_context>";
    var back := "<json_schema>\n" + schemaText + PromptTail;
    assert PromptText(context, schemaText) == front + PromptInstructions + back;
    ConcatEnds(front, PromptInstructions, back);
  }

  /** The request body: API version, token budget and the prompt as the one user message;
      "temperature" only when the generator has one. */
  function RequestBody(g: Generator, prompt: string): (body: Json)
    ensures body.JObj?
    ensures "temperature" in body.fields <==> g.temperature.Some?
    ensures g.temperature.Some? ==> body.fields["temperature"] == JNum(g.temperature.value)
    ensures "max_tokens" in body.fields && body.fields["max_tokens"] == JNum(g.maxTokensToSample as real)
    ensures "anthropic_version" in body.fields && body.fields["anthropic_version"] == JStr("bedrock-2023-05-31")
    ensures body.fields.Keys == {"anthropic_version", "max_tokens", "messages"} + (if g.temperature.Some? then {"temperature"} else {})
  {
    var base := map[
      "anthropic_version" := JStr("bedrock-2023-05-31"),
      "max_tokens" := JNum(g.maxTokensToSample as real),
      "messages" := JArr([JObj(map["role" := JStr("user"), "content" := JStr(prompt)])])];
    match g.temperature
    case None => JObj(base)
    case Some(t) => JObj(base["temperature" := JNum(t)])
  }

  /** The text of the single user message of a request body, if it has that shape. */
  function UserPrompt(body: Json): Option<string> {
    if body.JObj? && "messages" in body.fields && body.fields["messages"].JArr?
       && |body.fields["messages"].items| == 1 && body.fields["messages"].items[0].JObj?
       && "content" in body.fields["messages"].items[0].fields
       && body.fields["messages"].items[0].fields["content"].JStr?
    then Some(body.fields["messages"].items[0].fields["content"].s)
    else None
  }

  /** The prompt can be read back from the request body unchanged. */
  lemma RequestBodyCarriesPrompt(g: Generator, prompt: string)
    ensures UserPrompt(RequestBody(g, prompt)) == Some(prompt)
  {
  }

  /** Reading the reply: the stripped `text` of the first content block, when `content` is a
      non-empty list whose first block has a non-empty string `text`; None for any other shape
      (a missing or empty text, or an exception the method catches). */
  function FirstText(response: Json): (r: Option<string>)
    ensures r.Some? <==>
      response.JObj? && "content" in response.fields && response.fields["content"].JArr?
      && |response.fields["content"].items| > 0 && response.fields["content"].items[0].JObj?
      && "text" in response.fields["content"].items[0].fields
      && response.fields["content"].items[0].fields["text"].JStr?
      && response.fields["content"].items[0].fields["text"].s != ""
    ensures r.Some? ==> r.value == Strip(response.fields["content"].items[0].fields["text"].s)
    ensures r.Some? ==> Trimmed(r.value)
  {
    if response.JObj? && "content" in response.fields && response.fields["content"].JArr?
       && |response.fields["content"].items| > 0
    then
      var block := response.fields["content"].items[0];
      if block.JObj? && "text" in block.fields && block.fields["text"].JStr? && block.fields["text"].s != ""
      then Some(Strip(block.fields["text"].s))
      else None
    else None
  }

  /** A reply whose content is one text block. */
  function TextResponse(text: string): Json {
    JObj(map["content" := JArr([JObj(map["type" := JStr("text"), "text" := JStr(text)])])])
  }

  /** A one-block reply yields its stripped text, and nothing when the text is empty. */
  lemma FirstTextOfTextResponse(text: string)
    ensures text != "" ==> FirstText(TextResponse(text)) == Some(Strip(text))
    ensures text == "" ==> FirstText(TextResponse(text)) == None
  {
  }

  /** Replies without a usable first block give None. */
  lemma FirstTextRejects(fields: map<string, Json>)
    ensures FirstText(JObj(map["content" := JArr([])])) == None
    ensures FirstText(JObj(map["content" := JStr("text")])) == None
    ensures FirstText(JArr([TextResponse("x")])) == None
    ensures "content" !in fields ==> FirstText(JObj(fields)) == None
  {
  }

  /** `generate_structured_data`: build the prompt (no model call when that fails), send one
      request, read the first text block. `invoke` answers with the decoded reply, or None
      for a client error, an undecodable body or any other exception. */
  function GenerateStructuredData(g: Generator, chunks: seq<Chunk>, schema: Schema,
                                  dumpsIndent2: Schema -> Option<string>,
                                  invoke: (string, Json) -> Option<Json>): (gen: Generation)
    ensures ConstructPrompt(chunks, schema, dumpsIndent2).None? ==> gen == Generation(None, [])
    ensures ConstructPrompt(chunks, schema, dumpsIndent2).Some? ==>
      gen.requests == [RequestBody(g, ConstructPrompt(chunks, schema, dumpsIndent2).value)]
    ensures gen.text.Some? ==>
      (|gen.requests| == 1 && invoke(g.modelId, gen.requests[0]).Some?
       && gen.text == FirstText(invoke(g.modelId, gen.requests[0]).value))
    ensures ConstructPrompt(chunks, schema, dumpsIndent2).Some? ==>
      var body := RequestBody(g, ConstructPrompt(chunks, schema, dumpsIndent2).value);
      gen.text == (if invoke(g.modelId, body).Some? then FirstText(invoke(g.modelId, body).value) else None)
    ensures gen.text.Some? ==> Trimmed(gen.text.value)
  {
    match ConstructPrompt(chunks, schema, dumpsIndent2)
    case None => Generation(None, [])
    case Some(prompt) =>
      var body := RequestBody(g, prompt);
      match invoke(g.modelId, body)
      case None => Generation(None, [body])
      case Some(response) => Generation(FirstText(response), [body])
  }

  /** A request body carries the generator's token budget, and its temperature exactly when set. */
  predicate CarriesParameters(body: Json, g: Generator) {
    body.JObj? && "max_tokens" in body.fields && body.fields["max_tokens"] == JNum(g.maxTokensToSample as real)
    && ("temperature" in body.fields <==> g.temperature.Some?)
    && (g.temperature.Some? ==> body.fields["temperature"] == JNum(g.temperature.value))
  }

  /** A request body built from a generator carries that generator's parameters. */
  lemma RequestBodyCarriesParameters(g: Generator, prompt: string)
    ensures CarriesParameters(RequestBody(g, prompt), g)
  {
  }

  /** Every request carries the generator's parameters and the constructed prompt. */
  lemma GenerationUsesParameters(g: Generator, chunks: seq<Chunk>, schema: Schema,
                                 dumpsIndent2: Schema -> Option<string>, invoke: (string, Json) -> Option<Json>)
    ensures forall body :: body in GenerateStructuredData(g, chunks, schema, dumpsIndent2, invoke).requests ==>
      CarriesParameters(body, g) && UserPrompt(body) == ConstructPrompt(chunks, schema, dumpsIndent2)
  {
    var p := ConstructPrompt(chunks, schema, dumpsIndent2);
    RequestsOfPrompt(g, p, GenerateStructuredData(g, chunks, schema, dumpsIndent2, invoke).requests);
  }

  /** The requests sent for a prompt, or none without one, carry the parameters and that prompt. */
  lemma RequestsOfPrompt(g: Generator, p: Option<string>, requests: seq<Json>)
    requires p.None? ==> requests == []
    requires p.Some? ==> requests == [RequestBody(g, p.value)]
    ensures forall body :: body in requests ==> CarriesParameters(body, g) && UserPrompt(body) == p
  {
    if p.Some? {
      RequestBodyCarriesPrompt(g, p.value);
      RequestBodyCarriesParameters(g, p.value);
    }
  }
}
