/**
 * Extraction with field-level citations (services/field_level_extractor_complete.py):
 * chunks are numbered CHUNK_1, CHUNK_2, ... by their retrieval position, the model is
 * asked to cite those labels per field, and the cited labels are resolved back to the
 * retrieved chunks. The chunk numbering and the field lines are shared with the other
 * variant (field_citations_service.dfy), which only differs in the line break it writes.
 */
module FieldCitations {
  import opened Wrappers
  import opened Strings
  import opened Json
  import opened Schemas
  import opened KbRetriever
  import opened LlmGenerator
  import opened StructuredExtractor

  /** The two characters backslash and `n`: what this variant writes where a line break is meant. */
  const EscapedNewline: string := "\\n"

  /** The citation token for a 1-based chunk number, as the model is told to write it. */
  function ChunkToken(number: nat): string {
    "CHUNK_" + NatToString(number)
  }

  /** Each chunk's `content.text`, stripped. */
  function StrippedTexts(chunks: seq<Chunk>): (texts: seq<string>)
    ensures |texts| == |chunks|
    ensures forall i :: 0 <= i < |chunks| ==> texts[i] == Strip(chunks[i].text)
  {
    seq(|chunks|, i requires 0 <= i < |chunks| => Strip(chunks[i].text))
  }

  /** The positions, in order, of the non-empty texts from `start` on. */
  function Survivors(texts: seq<string>, start: nat): (positions: seq<nat>)
    ensures forall k :: 0 <= k < |positions| ==> start <= positions[k] < |texts| && texts[positions[k]] != ""
    ensures forall i :: start <= i < |texts| && texts[i] != "" ==> i in positions
    ensures forall k, l :: 0 <= k < l < |positions| ==> positions[k] < positions[l]
    decreases |texts| - start
  {
    if start >= |texts| then []
    else
      var rest := Survivors(texts, start + 1);
      if texts[start] != "" then [start] + rest else rest
  }

  /** One numbered piece: the label of the chunk's 1-based position, a line break, its stripped text. */
  function NumberedPiece(position: nat, stripped: string, newline: string): string {
    "[" + ChunkToken(position + 1) + "]" + newline + stripped
  }

  /** The numbered pieces of the chunks with non-empty stripped text, in retrieval order;
      a chunk keeps its own position's number when earlier chunks were skipped. */
  function NumberedPieces(chunks: seq<Chunk>, newline: string): (pieces: seq<string>)
    ensures |pieces| == |Survivors(StrippedTexts(chunks), 0)|
    ensures forall k :: 0 <= k < |pieces| ==>
      var p := Survivors(StrippedTexts(chunks), 0)[k];
      pieces[k] == NumberedPiece(p, Strip(chunks[p].text), newline)
  {
    var texts := StrippedTexts(chunks);
    var positions := Survivors(texts, 0);
    seq(|positions|, k requires 0 <= k < |positions| => NumberedPiece(positions[k], texts[positions[k]], newline))
  }

  /** The context block: the numbered pieces separated by two line breaks. */
  function ChunkContext(chunks: seq<Chunk>, newline: string): string {
    Join(NumberedPieces(chunks, newline), newline + newline)
  }

  /** Every chunk with text gets a piece, and that piece names the chunk's own position. */
  lemma EveryTextIsNumbered(chunks: seq<Chunk>, i: nat, newline: string)
    requires i < |chunks| && Strip(chunks[i].text) != ""
    ensures NumberedPiece(i, Strip(chunks[i].text), newline) in NumberedPieces(chunks, newline)
  {
    var positions := Survivors(StrippedTexts(chunks), 0);
    var k :| 0 <= k < |positions| && positions[k] == i;
    assert NumberedPieces(chunks, newline)[k] == NumberedPiece(i, Strip(chunks[i].text), newline);
  }

  /** A chunk whose text is empty once stripped gets no piece, whatever its position. */
  lemma BlankChunksAreSkipped(chunks: seq<Chunk>, newline: string)
    ensures |NumberedPieces(chunks, newline)| == 0 <==> forall i :: 0 <= i < |chunks| ==> StrippedTexts(chunks)[i] == ""
  {
    if |NumberedPieces(chunks, newline)| > 0 {
      var i := Survivors(StrippedTexts(chunks), 0)[0];
      assert StrippedTexts(chunks)[i] != "";
    }
  }

  /** One line per schema property: `- name (type): description`, with the type defaulting to
      `string` and the description to `The <name> field`. */
  function FieldLine(name: string, definition: Schema): string {
    "- " + name + " (" + TypeText(definition.typ.GetOr(OneType("string"))) + "): "
    + definition.description.GetOr("The " + name + " field")
  }

  /** The field lines of the schema's properties, in declaration order. */
  function FieldLines(properties: seq<(string, Schema)>): (lines: seq<string>)
    ensures |lines| == |properties|
    ensures forall i :: 0 <= i < |lines| ==> lines[i] == FieldLine(properties[i].0, properties[i].1)
  {
    seq(|properties|, i requires 0 <= i < |properties| => FieldLine(properties[i].0, properties[i].1))
  }

  /** A property without a declared type or description is described by the defaults. */
  lemma FieldLineDefaults(name: string)
    ensures FieldLine(name, Schema(None, None, [], [], None)) == "- " + name + " (string): The " + name + " field"
  {
  }

  /** A nullable-string property is listed with Python's rendering of its type list. */
  lemma FieldLineOfTypeList(name: string, description: string)
    ensures FieldLine(name, Field(NullableString, description)) == "- " + name + " (['string', 'null']): " + description
  {
    var definition := Field(NullableString, description);
    assert definition.typ.GetOr(OneType("string")) == NullableString;
    assert definition.description.GetOr("The " + name + " field") == description;
    NullableStringText();
  }

  const CompleteIntro: string :=
    "Human: Extract specific fields with citations from document chunks.\n\n<document_chunks>\n"

  const CompleteMiddle: string :=
    "\n</document_chunks>\n\nExtract these fields:\n"

  const CompleteTail: string :=
    "\n\nResponse format (JSON only):\n{\n  \"extracted_data\": {\"field_name\": \"value\"},\n  \"field_citations\": {\"field_name\": [\"CHUNK_1\", \"CHUNK_2\"]}\n}\n\nRules:\n1. Extract values only from the chunks\n2. List chunk numbers that contain evidence for each field\n3. Use null for missing fields\n4. Only cite relevant chunks\n5. Return valid JSON only"

  /** `_create_field_citation_prompt`: None when no chunk has text; otherwise the numbered chunks
      and the field lines, both joined with the escaped line break, inside the template. */
  function CreateFieldCitationPrompt(chunks: seq<Chunk>, properties: seq<(string, Schema)>): (p: Option<string>)
    ensures p.None? <==> forall i :: 0 <= i < |chunks| ==> StrippedTexts(chunks)[i] == ""
    ensures p.Some? ==> StartsWith(p.value, CompleteIntro + ChunkContext(chunks, EscapedNewline) + CompleteMiddle)
    ensures p.Some? ==> EndsWith(p.value, CompleteMiddle + Join(FieldLines(properties), EscapedNewline) + CompleteTail)
    ensures p.Some? ==>
      |p.value| == |CompleteIntro + ChunkContext(chunks, EscapedNewline) + CompleteMiddle|
                   + |Join(FieldLines(properties), EscapedNewline) + CompleteTail|
  {
    BlankChunksAreSkipped(chunks, EscapedNewline);
    if |NumberedPieces(chunks, EscapedNewline)| == 0 then None
    else
      var front := CompleteIntro + ChunkContext(chunks, EscapedNewline);
      var back := Join(FieldLines(properties), EscapedNewline) + CompleteTail;
      Overlapping(front, CompleteMiddle, back);
      Some(front + CompleteMiddle + back)
  }

  /** A text made of three parts starts with the first two and ends with the last two. */
  lemma Overlapping(front: string, middle: string, back: string)
    ensures StartsWith(front + middle + back, front + middle)
    ensures EndsWith(front + middle + back, middle + back)
    ensures |front + middle + back| == |front + middle| + |back|
  {
    assert (front + middle + back)[..|front + middle|] == front + middle;
    assert (front + middle + back)[|front|..] == middle + back;
  }

  /** The number a label names: for a text starting with `CHUNK_`, the integer value of the text
      between the first and second `_`, if it is one. */
  function ChunkNumber(s: string): (n: Option<int>)
    ensures n.Some? ==> StartsWith(s, "CHUNK_")
  {
    if !StartsWith(s, "CHUNK_") then None
    else
      var pieces := Split(s, '_');
      if |pieces| < 2 then None else ParseInt(pieces[1])
  }

  /** Whether a cited token names a retrieved chunk, and which: a string whose label number n
      satisfies 1 <= n <= |chunks| names the chunk at position n - 1. */
  function ResolveToken(token: Json, chunks: seq<Chunk>): (r: Option<Chunk>)
    ensures r.Some? ==> r.value in chunks
    ensures r.Some? ==> token.JStr? && StartsWith(token.s, "CHUNK_")
  {
    if token.JStr? then
      match ChunkNumber(token.s)
      case Some(n) => if 0 <= n - 1 < |chunks| then Some(chunks[n - 1]) else None
      case None => None
    else None
  }

  /** The chunks a list of tokens cites, in token order, duplicates kept, unresolvable tokens dropped. */
  function ResolveTokens(tokens: seq<Json>, chunks: seq<Chunk>): (cited: seq<Chunk>)
    ensures |cited| <= |tokens|
    ensures forall k :: 0 <= k < |cited| ==> cited[k] in chunks
  {
    if |tokens| == 0 then []
    else
      var rest := ResolveTokens(tokens[1..], chunks);
      match ResolveToken(tokens[0], chunks)
      case Some(c) => [c] + rest
      case None => rest
  }

  /** The citations of one field: its tokens when the value is a list, nothing otherwise. */
  function ResolveReferences(references: Json, chunks: seq<Chunk>): (cited: seq<Chunk>)
    ensures forall k :: 0 <= k < |cited| ==> cited[k] in chunks
    ensures !references.JArr? ==> cited == []
  {
    if references.JArr? then ResolveTokens(references.items, chunks) else []
  }

  /** Resolution works token by token: resolving a concatenation concatenates the results. */
  lemma {:induction false} ResolveTokensAppend(a: seq<Json>, b: seq<Json>, chunks: seq<Chunk>)
    ensures ResolveTokens(a + b, chunks) == ResolveTokens(a, chunks) + ResolveTokens(b, chunks)
  {
    if |a| > 0 {
      assert (a + b)[1..] == a[1..] + b;
      assert (a + b)[0] == a[0];
      ResolveTokensAppend(a[1..], b, chunks);
    } else {
      assert a + b == b;
    }
  }

  /** One token in front adds its chunk, if it names one, in front. */
  lemma ResolveTokensCons(t: Json, rest: seq<Json>, chunks: seq<Chunk>)
    ensures ResolveTokens([t] + rest, chunks)
         == (if ResolveToken(t, chunks).Some? then [ResolveToken(t, chunks).value] else []) + ResolveTokens(rest, chunks)
  {
    assert ([t] + rest)[0] == t && ([t] + rest)[1..] == rest;
  }

  /** A single token resolves to its chunk or to nothing. */
  lemma ResolveSingleToken(t: Json, chunks: seq<Chunk>)
    ensures ResolveTokens([t], chunks) == if ResolveToken(t, chunks).Some? then [ResolveToken(t, chunks).value] else []
  {
    assert [t][1..] == [];
  }

  /** The label given to the chunk at position i resolves back to exactly that chunk. */
  lemma TokenResolvesToItsChunk(chunks: seq<Chunk>, i: nat)
    requires i < |chunks|
    ensures ResolveToken(JStr(ChunkToken(i + 1)), chunks) == Some(chunks[i])
  {
    LabelNumber(i + 1);
  }

  /** A token that is the label of position i resolves to the chunk there. */
  lemma LabelResolves(t: Json, chunks: seq<Chunk>, i: nat)
    requires i < |chunks| && t == JStr(ChunkToken(i + 1))
    ensures ResolveToken(t, chunks) == Some(chunks[i])
  {
    TokenResolvesToItsChunk(chunks, i);
  }

  /** A well-formed token whose number is 0 or beyond the last chunk resolves to nothing. */
  lemma TokenOutOfRange(chunks: seq<Chunk>, n: nat)
    requires n == 0 || n > |chunks|
    ensures ResolveToken(JStr(ChunkToken(n)), chunks) == None
  {
    LabelNumber(n);
  }

  /** The label of a number names that number: `int("CHUNK_<n>".split("_")[1]) == n`. */
  lemma LabelNumber(n: nat)
    ensures ChunkNumber(ChunkToken(n)) == Some(n)
  {
    TokenPrefix(n);
    TokenPieces(n);
    ParseIntOfNat(n);
  }

  /** Every label starts with `CHUNK_`. */
  lemma TokenPrefix(n: nat)
    ensures StartsWith(ChunkToken(n), "CHUNK_")
  {
    StartsWithAppend("CHUNK_", NatToString(n));
  }

  /** A label splits on `_` into `CHUNK` and the number's digits. */
  lemma TokenPieces(n: nat)
    ensures Split(ChunkToken(n), '_') == ["CHUNK", NatToString(n)]
  {
    var digits := NatToString(n);
    assert ChunkToken(n) == "CHUNK" + ['_'] + digits;
    SplitAfterPrefix("CHUNK", '_', digits);
    forall k | 0 <= k < |digits| ensures digits[k] != '_' {
      assert IsDigit(digits[k]);
    }
    SplitWithout(digits, '_');
  }

  /** The tokens naming the chunks at positions `ps`, in order. */
  function LabelTokens(ps: seq<nat>): (tokens: seq<Json>)
    ensures |tokens| == |ps|
    ensures forall k :: 0 <= k < |ps| ==> tokens[k] == JStr(ChunkToken(ps[k] + 1))
  {
    seq(|ps|, k requires 0 <= k < |ps| => JStr(ChunkToken(ps[k] + 1)))
  }

  /** The chunks at positions `ps`, in order. */
  function ChunksAt(chunks: seq<Chunk>, ps: seq<nat>): (cs: seq<Chunk>)
    requires forall k :: 0 <= k < |ps| ==> ps[k] < |chunks|
    ensures |cs| == |ps|
    ensures forall k :: 0 <= k < |ps| ==> cs[k] == chunks[ps[k]]
  {
    seq(|ps|, k requires 0 <= k < |ps| => chunks[ps[k]])
  }

  /** Citing the labels of positions ps resolves to the chunks at those positions, in that order. */
  lemma LabelsResolveInOrder(chunks: seq<Chunk>, ps: seq<nat>)
    requires forall k :: 0 <= k < |ps| ==> ps[k] < |chunks|
    ensures ResolveTokens(LabelTokens(ps), chunks) == ChunksAt(chunks, ps)
  {
    var tokens := LabelTokens(ps);
    var cs := ChunksAt(chunks, ps);
    forall k | 0 <= k < |tokens| ensures ResolveToken(tokens[k], chunks) == Some(cs[k]) {
      LabelResolves(tokens[k], chunks, ps[k]);
    }
    EveryTokenResolves(tokens, chunks, cs);
  }

  /** Tokens that each name a chunk resolve to those chunks, in order. */
  lemma {:induction false} EveryTokenResolves(tokens: seq<Json>, chunks: seq<Chunk>, cs: seq<Chunk>)
    requires |tokens| == |cs|
    requires forall k :: 0 <= k < |tokens| ==> ResolveToken(tokens[k], chunks) == Some(cs[k])
    ensures ResolveTokens(tokens, chunks) == cs
  {
    if |tokens| > 0 {
      assert ResolveToken(tokens[0], chunks) == Some(cs[0]);
      EveryTokenResolves(tokens[1..], chunks, cs[1..]);
      assert cs == [cs[0]] + cs[1..];
    }
  }

  /** Tokens that are not strings, or do not start with `CHUNK_`, resolve to nothing. */
  lemma NonLabelTokensDropped(chunks: seq<Chunk>, n: real)
    ensures ResolveToken(JNum(n), chunks) == None
    ensures ResolveToken(JStr("chunk_1"), chunks) == None
  {
    assert !StartsWith("chunk_1", "CHUNK_") by { assert "chunk_1"[0] != "CHUNK_"[0]; }
  }

  /** A label without an integer after it resolves to nothing. */
  lemma NonNumericLabelDropped(chunks: seq<Chunk>)
    ensures ResolveToken(JStr("CHUNK_x"), chunks) == None
  {
    assert "CHUNK_x" == "CHUNK" + ['_'] + "x";
    SplitAfterPrefix("CHUNK", '_', "x");
    SplitWithout("x", '_');
    assert Split("CHUNK_x", '_')[1] == "x";
    NotANumber();
  }

  lemma NotANumber()
    ensures ParseInt("x") == None
  {
    assert Trimmed("x") && "x"[0] == 'x';
    ParseIntNonDigit("x");
  }

  /** With two chunks: `CHUNK_2` twice keeps the duplicate, while `CHUNK_99` and a number are dropped. */
  lemma CitationExample(a: Chunk, b: Chunk)
    ensures ResolveTokens([JStr(ChunkToken(2)), JStr(ChunkToken(99)), JNum(1.0), JStr(ChunkToken(2))], [a, b]) == [b, b]
  {
    var chunks := [a, b];
    var tokens := [JStr(ChunkToken(2)), JStr(ChunkToken(99)), JNum(1.0), JStr(ChunkToken(2))];
    TokenResolvesToItsChunk(chunks, 1);
    TokenOutOfRange(chunks, 99);
    NonLabelTokensDropped(chunks, 1.0);
    assert ResolveTokens(tokens[3..], chunks) == [b];
    assert ResolveTokens(tokens[2..], chunks) == [b] by { assert tokens[2..][1..] == tokens[3..]; }
    assert ResolveTokens(tokens[1..], chunks) == [b] by { assert tokens[1..][1..] == tokens[2..]; }
  }

  /** The parsed reply: the extracted values and, per cited field, the resolved chunks. */
  datatype CitationResult = CitationResult(extractedData: Json, fieldCitations: map<string, seq<Chunk>>)

  /** `_parse_field_citation_response`: clean as `_parse_and_validate` does, then parse with no
      `{...}` check and no schema validation. `extracted_data` and `field_citations` default to `{}`;
      a reply that is not an object, or whose `field_citations` is not an object, raises inside the
      method and gives None. */
  function ParseFieldCitationResponse(raw: string, chunks: seq<Chunk>, loads: string -> Option<Json>): (r: Option<CitationResult>)
    ensures r.Some? <==>
      loads(CleanOutput(raw)).Some? && loads(CleanOutput(raw)).value.JObj?
      && Get(loads(CleanOutput(raw)).value.fields, "field_citations", EmptyObject).JObj?
    ensures r.Some? ==>
      var fields := loads(CleanOutput(raw)).value.fields;
      var references := Get(fields, "field_citations", EmptyObject).fields;
      r.value.extractedData == Get(fields, "extracted_data", EmptyObject)
      && r.value.fieldCitations.Keys == references.Keys
      && forall name :: name in references ==> r.value.fieldCitations[name] == ResolveReferences(references[name], chunks)
  {
    ReadCitations(loads(CleanOutput(raw)), chunks)
  }

  /** The parsed reply read as a citation result. */
  function ReadCitations(parsed: Option<Json>, chunks: seq<Chunk>): (r: Option<CitationResult>)
    ensures r.Some? <==>
      parsed.Some? && parsed.value.JObj? && Get(parsed.value.fields, "field_citations", EmptyObject).JObj?
    ensures r.Some? ==>
      var fields := parsed.value.fields;
      var references := Get(fields, "field_citations", EmptyObject).fields;
      r.value.extractedData == Get(fields, "extracted_data", EmptyObject)
      && r.value.fieldCitations.Keys == references.Keys
      && forall name :: name in references ==> r.value.fieldCitations[name] == ResolveReferences(references[name], chunks)
  {
    match parsed
    case Some(JObj(fields)) =>
      var references := Get(fields, "field_citations", EmptyObject);
      if !references.JObj? then None
      else
        Some(CitationResult(
          Get(fields, "extracted_data", EmptyObject),
          map name | name in references.fields :: ResolveReferences(references.fields[name], chunks)))
    case _ => None
  }

  /** Every chunk a parsed reply cites is one of the chunks the prompt was built from. */
  lemma CitedChunksAreRetrieved(raw: string, chunks: seq<Chunk>, loads: string -> Option<Json>)
    requires ParseFieldCitationResponse(raw, chunks, loads).Some?
    ensures forall name, c :: (name in ParseFieldCitationResponse(raw, chunks, loads).value.fieldCitations
      && c in ParseFieldCitationResponse(raw, chunks, loads).value.fieldCitations[name]) ==> c in chunks
  {
    var r := ParseFieldCitationResponse(raw, chunks, loads).value;
    forall name, c | name in r.fieldCitations && c in r.fieldCitations[name] ensures c in chunks {
      var k :| 0 <= k < |r.fieldCitations[name]| && r.fieldCitations[name][k] == c;
    }
  }

  /** The reply `{}` is where the two parsers part ways: this one answers with empty data and no
      citations, while the structured pipeline rejects it, because `{}` is falsy. */
  lemma EmptyObjectReply(chunks: seq<Chunk>, svc: Services, schema: Schema)
    requires svc.loads("{}") == Some(EmptyObject)
    ensures ParseFieldCitationResponse("{}", chunks, svc.loads) == Some(CitationResult(EmptyObject, map[]))
    ensures !Accepted(svc, schema, "{}")
  {
    assert ObjectText("{}") by { assert Trimmed("{}"); }
    CleanBare("{}");
    var r := ParseFieldCitationResponse("{}", chunks, svc.loads).value;
    assert r.fieldCitations.Keys == {};
  }

  /** Reading the reply in `_call_llm_with_prompt`: the stripped `text` of the first content block,
      "" when the block has no text; None for any other shape. */
  function ReplyText(response: Json): Option<string> {
    if response.JObj? && "content" in response.fields && response.fields["content"].JArr?
       && |response.fields["content"].items| > 0 && response.fields["content"].items[0].JObj?
    then
      match Get(response.fields["content"].items[0].fields, "text", JStr(""))
      case JStr(t) => Some(Strip(t))
      case _ => None
    else None
  }

  /** This reader agrees with the generator's whenever the generator's yields text, and it also
      yields "" where the generator's yields None. */
  lemma ReplyTextExtendsFirstText(response: Json)
    ensures FirstText(response).Some? ==> ReplyText(response) == FirstText(response)
    ensures ReplyText(TextResponse("")) == Some("")
    ensures FirstText(TextResponse("")) == None
    ensures ReplyText(response).Some? && ReplyText(response).value != "" ==> FirstText(response) == ReplyText(response)
  {
    ReadersAgree(response);
    EmptyTextReply();
  }

  /** On a reply with a first block, both readers take its text; they differ only on "". */
  lemma ReadersAgree(response: Json)
    ensures FirstText(response).Some? ==> ReplyText(response) == FirstText(response)
    ensures ReplyText(response).Some? && ReplyText(response).value != "" ==> FirstText(response) == ReplyText(response)
  {
    if response.JObj? && "content" in response.fields && response.fields["content"].JArr?
       && |response.fields["content"].items| > 0 && response.fields["content"].items[0].JObj? {
      var fields := response.fields["content"].items[0].fields;
      if "text" !in fields {
        assert Get(fields, "text", JStr("")) == JStr("");
        assert AllSpace("");
      } else if fields["text"] == JStr("") {
        assert AllSpace("");
      }
    }
  }

  /** A one-block reply with empty text. */
  lemma EmptyTextReply()
    ensures ReplyText(TextResponse("")) == Some("")
    ensures FirstText(TextResponse("")) == None
  {
    FirstTextOfTextResponse("");
    assert AllSpace("");
  }

  /** `_call_llm_with_prompt`: one request built as the generator builds it, from the generator's
      current parameters. */
  function CallLlmWithPrompt(g: Generator, prompt: string, invoke: (string, Json) -> Option<Json>): (gen: Generation)
    ensures gen.requests == [RequestBody(g, prompt)]
    ensures invoke(g.modelId, RequestBody(g, prompt)).None? ==> gen.text.None?
    ensures invoke(g.modelId, RequestBody(g, prompt)).Some? ==>
      gen.text == ReplyText(invoke(g.modelId, RequestBody(g, prompt)).value)
  {
    var body := RequestBody(g, prompt);
    match invoke(g.modelId, body)
    case None => Generation(None, [body])
    case Some(response) => Generation(ReplyText(response), [body])
  }

  /** The enhanced step's answer, the generator after it, and the requests it sent. */
  datatype Enhanced = Enhanced(result: Option<CitationResult>, generator: Generator, requests: seq<Json>)

  /** Every chunk cited in a result is one of `chunks`. */
  predicate CitesOnly(r: CitationResult, chunks: seq<Chunk>) {
    forall name, c :: (name in r.fieldCitations && c in r.fieldCitations[name]) ==> c in chunks
  }

  /** The body of the `try`: send the prompt with the generator as it is, and parse a non-empty reply. */
  function AskForCitations(g: Generator, prompt: string, chunks: seq<Chunk>,
                           invoke: (string, Json) -> Option<Json>, loads: string -> Option<Json>): (e: Enhanced)
    ensures e.generator == g
    ensures |e.requests| == 1 && CarriesParameters(e.requests[0], g)
    ensures e.result.Some? <==>
      CallLlmWithPrompt(g, prompt, invoke).text.Some? && CallLlmWithPrompt(g, prompt, invoke).text.value != ""
      && ParseFieldCitationResponse(CallLlmWithPrompt(g, prompt, invoke).text.value, chunks, loads).Some?
    ensures e.result.Some? ==>
      e.result == ParseFieldCitationResponse(CallLlmWithPrompt(g, prompt, invoke).text.value, chunks, loads)
    ensures e.result.Some? ==> CitesOnly(e.result.value, chunks)
  {
    var call := CallLlmWithPrompt(g, prompt, invoke);
    RequestBodyCarriesParameters(g, prompt);
    if call.text.None? || call.text.value == "" then Enhanced(None, g, call.requests)
    else
      var parsed := ParseFieldCitationResponse(call.text.value, chunks, loads);
      if parsed.Some? then
        CitedChunksAreRetrieved(call.text.value, chunks, loads);
        Enhanced(parsed, g, call.requests)
      else Enhanced(None, g, call.requests)
  }

  /** The one request the `try` sends is the body the generator builds for the prompt. */
  lemma AskSendsPrompt(g: Generator, prompt: string, chunks: seq<Chunk>,
                       invoke: (string, Json) -> Option<Json>, loads: string -> Option<Json>)
    ensures AskForCitations(g, prompt, chunks, invoke, loads).requests == [RequestBody(g, prompt)]
  {
  }

  /** The enhanced step once the prompt is known (None when it could not be built). */
  function EnhancedWith(g: Generator, temperature: Option<real>, maxTokens: Option<int>, prompt: Option<string>,
                        chunks: seq<Chunk>, invoke: (string, Json) -> Option<Json>,
                        loads: string -> Option<Json>): (e: Enhanced)
    ensures e.generator == g
    ensures prompt.None? ==> e.result.None? && e.requests == []
    ensures prompt.Some? ==> e.requests == [RequestBody(WithOverrides(g, temperature, maxTokens), prompt.value)]
    ensures |e.requests| <= 1
    ensures forall body :: body in e.requests ==> CarriesParameters(body, WithOverrides(g, temperature, maxTokens))
    ensures prompt.Some? ==>
      e.result == AskForCitations(WithOverrides(g, temperature, maxTokens), prompt.value, chunks, invoke, loads).result
    ensures e.result.Some? ==> CitesOnly(e.result.value, chunks)
  {
    var during := WithOverrides(g, temperature, maxTokens);
    OverrideThenRestore(g, temperature, maxTokens);
    match prompt
    case None => Enhanced(None, Restore(during, g), [])
    case Some(p) =>
      var asked := AskForCitations(during, p, chunks, invoke, loads);
      assert asked.requests == [asked.requests[0]];
      Enhanced(asked.result, Restore(during, g), asked.requests)
  }

  /** The text `_call_llm_with_prompt` reads back for the citation prompt, sent with the overrides
      in force (None when there is no prompt). */
  function CitationReply(g: Generator, chunks: seq<Chunk>, properties: seq<(string, Schema)>,
                         temperature: Option<real>, maxTokens: Option<int>,
                         invoke: (string, Json) -> Option<Json>): Option<string> {
    match CreateFieldCitationPrompt(chunks, properties)
    case None => None
    case Some(p) => CallLlmWithPrompt(WithOverrides(g, temperature, maxTokens), p, invoke).text
  }

  /** Once the citation prompt has been sent and the model has answered, the enhanced step
      succeeds exactly when the reply's text is non-empty and parses, and its result is that
      parse: the data and the citations come from the reply and nowhere else. */
  lemma CitationsComeFromReply(g: Generator, chunks: seq<Chunk>, properties: seq<(string, Schema)>,
                               temperature: Option<real>, maxTokens: Option<int>,
                               invoke: (string, Json) -> Option<Json>, loads: string -> Option<Json>, response: Json)
    requires CreateFieldCitationPrompt(chunks, properties).Some?
    requires invoke(g.modelId, RequestBody(WithOverrides(g, temperature, maxTokens),
                                           CreateFieldCitationPrompt(chunks, properties).value)) == Some(response)
    ensures ExtractWithEnhancedPrompt(g, chunks, properties, temperature, maxTokens, invoke, loads).result.Some? <==>
      ReplyText(response).Some? && ReplyText(response).value != ""
      && ParseFieldCitationResponse(ReplyText(response).value, chunks, loads).Some?
    ensures ExtractWithEnhancedPrompt(g, chunks, properties, temperature, maxTokens, invoke, loads).result.Some? ==>
      ExtractWithEnhancedPrompt(g, chunks, properties, temperature, maxTokens, invoke, loads).result
      == ParseFieldCitationResponse(ReplyText(response).value, chunks, loads)
  {
    assert CitationReply(g, chunks, properties, temperature, maxTokens, invoke) == ReplyText(response);
  }

  /** `_extract_with_enhanced_prompt`: override, prompt, call, parse, and restore in `finally`. */
  function ExtractWithEnhancedPrompt(g: Generator, chunks: seq<Chunk>, properties: seq<(string, Schema)>,
                                     temperature: Option<real>, maxTokens: Option<int>,
                                     invoke: (string, Json) -> Option<Json>, loads: string -> Option<Json>): (e: Enhanced)
    ensures e.generator == g
    ensures CreateFieldCitationPrompt(chunks, properties).None? ==> e.result.None? && e.requests == []
    ensures CreateFieldCitationPrompt(chunks, properties).Some? ==>
      e.requests == [RequestBody(WithOverrides(g, temperature, maxTokens), CreateFieldCitationPrompt(chunks, properties).value)]
    ensures |e.requests| <= 1
    ensures forall body :: body in e.requests ==> CarriesParameters(body, WithOverrides(g, temperature, maxTokens))
    ensures e.result.Some? <==>
      CreateFieldCitationPrompt(chunks, properties).Some?
      && CitationReply(g, chunks, properties, temperature, maxTokens, invoke).Some?
      && CitationReply(g, chunks, properties, temperature, maxTokens, invoke).value != ""
      && ParseFieldCitationResponse(CitationReply(g, chunks, properties, temperature, maxTokens, invoke).value,
                                    chunks, loads).Some?
    ensures e.result.Some? ==>
      e.result == ParseFieldCitationResponse(CitationReply(g, chunks, properties, temperature, maxTokens, invoke).value,
                                             chunks, loads)
    ensures e.result.Some? ==> CitesOnly(e.result.value, chunks)
  {
    EnhancedWith(g, temperature, maxTokens, CreateFieldCitationPrompt(chunks, properties), chunks, invoke, loads)
  }

  /** The envelope of a successful field-level extraction. */
  datatype CitationEnvelope = CitationEnvelope(
    documentIdentifier: string, schemaUsed: string, extractedData: Json, extractionStatus: string,
    citations: seq<Chunk>, fieldCitations: map<string, seq<Chunk>>)

  /** An extraction's answer, the generator after it, and what it sent out. */
  datatype CitationExtraction = CitationExtraction(result: Option<CitationEnvelope>, generator: Generator,
                                                   kbQueries: seq<KbQuery>, modelRequests: seq<Json>)

  /** The enhanced step of an extraction against a schema's properties. */
  function Enhance(svc: Services, g: Generator, chunks: seq<Chunk>, schema: Schema,
                   temperature: Option<real>, maxTokens: Option<int>): Enhanced {
    ExtractWithEnhancedPrompt(g, chunks, schema.properties, temperature, maxTokens, svc.invoke, svc.loads)
  }

  /** `extract_with_field_citations` in this variant: unknown schema, no chunks or a failed enhanced
      step each give None; otherwise the envelope carries the enhanced step's data and field
      citations, and every retrieved chunk under `citations`. */
  function ExtractWithFieldCitations(svc: Services, g: Generator, documentId: string, schemaName: string,
                                     retrievalQuery: Option<string>, temperature: Option<real>,
                                     maxTokens: Option<int>): (x: CitationExtraction)
    ensures x.generator == g
    ensures GetSchema(schemaName).None? ==> x == CitationExtraction(None, g, [], [])
    ensures x.result.Some? <==>
      GetSchema(schemaName).Some? && Retrieve(svc, documentId, retrievalQuery).chunks.Some?
      && Enhance(svc, g, Retrieve(svc, documentId, retrievalQuery).chunks.value, GetSchema(schemaName).value,
                 temperature, maxTokens).result.Some?
    ensures x.result.Some? ==>
      var r := Enhance(svc, g, Retrieve(svc, documentId, retrievalQuery).chunks.value, GetSchema(schemaName).value,
                       temperature, maxTokens).result.value;
      x.result.value == CitationEnvelope(documentId, schemaName, r.extractedData, "success",
                                         Retrieve(svc, documentId, retrievalQuery).chunks.value, r.fieldCitations)
    ensures x.result.Some? ==>
      forall name, c :: (name in x.result.value.fieldCitations && c in x.result.value.fieldCitations[name])
        ==> c in x.result.value.citations
  {
    CitationsWith(svc, g, documentId, schemaName, GetSchema(schemaName), retrievalQuery, temperature, maxTokens)
  }

  /** The extraction once the schema lookup is done (None for an unknown name). */
  function CitationsWith(svc: Services, g: Generator, documentId: string, schemaName: string, lookup: Option<Schema>,
                         retrievalQuery: Option<string>, temperature: Option<real>,
                         maxTokens: Option<int>): (x: CitationExtraction)
    ensures x.generator == g
    ensures lookup.None? ==> x == CitationExtraction(None, g, [], [])
    ensures lookup.Some? ==> x.kbQueries == Retrieve(svc, documentId, retrievalQuery).issued
    ensures x.result.Some? <==>
      lookup.Some? && Retrieve(svc, documentId, retrievalQuery).chunks.Some?
      && Enhance(svc, g, Retrieve(svc, documentId, retrievalQuery).chunks.value, lookup.value,
                 temperature, maxTokens).result.Some?
    ensures x.result.Some? ==>
      var r := Enhance(svc, g, Retrieve(svc, documentId, retrievalQuery).chunks.value, lookup.value,
                       temperature, maxTokens).result.value;
      x.result.value == CitationEnvelope(documentId, schemaName, r.extractedData, "success",
                                         Retrieve(svc, documentId, retrievalQuery).chunks.value, r.fieldCitations)
    ensures x.result.Some? ==>
      forall name, c :: (name in x.result.value.fieldCitations && c in x.result.value.fieldCitations[name])
        ==> c in x.result.value.citations
  {
    match lookup
    case None => CitationExtraction(None, g, [], [])
    case Some(schema) =>
      var retrieval := Retrieve(svc, documentId, retrievalQuery);
      match retrieval.chunks
      case None => CitationExtraction(None, g, retrieval.issued, [])
      case Some(chunks) =>
        CiteChunks(svc, g, documentId, schemaName, schema, chunks, retrieval.issued, temperature, maxTokens)
  }

  /** The extraction once chunks were retrieved: it succeeds exactly when the enhanced step does,
      and then wraps that step's data and field citations, with all the chunks as `citations`. */
  function CiteChunks(svc: Services, g: Generator, documentId: string, schemaName: string, schema: Schema,
                      chunks: seq<Chunk>, issued: seq<KbQuery>, temperature: Option<real>,
                      maxTokens: Option<int>): (x: CitationExtraction)
    ensures x.generator == g && x.kbQueries == issued
    ensures x.modelRequests == Enhance(svc, g, chunks, schema, temperature, maxTokens).requests
    ensures x.result.Some? <==> Enhance(svc, g, chunks, schema, temperature, maxTokens).result.Some?
    ensures x.result.Some? ==>
      var r := Enhance(svc, g, chunks, schema, temperature, maxTokens).result.value;
      x.result.value == CitationEnvelope(documentId, schemaName, r.extractedData, "success", chunks, r.fieldCitations)
    ensures x.result.Some? ==>
      CitesOnly(CitationResult(x.result.value.extractedData, x.result.value.fieldCitations), chunks)
  {
    var e := Enhance(svc, g, chunks, schema, temperature, maxTokens);
    match e.result
    case None => CitationExtraction(None, e.generator, issued, e.requests)
    case Some(r) =>
      CitationExtraction(
        Some(CitationEnvelope(documentId, schemaName, r.extractedData, "success", chunks, r.fieldCitations)),
        e.generator, issued, e.requests)
  }
}
