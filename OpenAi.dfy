/**
  The classifier client (OpenAiClient): guards on the API key, builds the
  Responses-API request with a strict four-field output schema, posts it,
  locates the model's structured text in the response envelope, parses it
  and checks that the text fields are not blank. Every failure leaves as an
  IllegalStateException with one of three messages.

  The HTTP round trip and Jackson's parsers come in as the `Io` record.
 */
module OpenAi {
  import opened Lang
  import opened JavaStrings
  import opened Json
  import opened Domain

  const MSG_NO_API_KEY := "Chave de IA nao configurada."
  const MSG_AI_FAILURE := "Falha ao consultar a IA. Tente novamente."
  const MSG_AI_INVALID := "Resposta da IA invalida. Tente novamente."

  /** The system instruction sent ahead of the email text. */
  const PROMPT_SYSTEM :=
    "Voce e um classificador de emails.\n"
    + "Classifique o email como PRODUTIVO ou IMPRODUTIVO.\n"
    + "Retorne JSON valido com:\n"
    + "category, confidence (0 a 1), reason (curto), suggestedReply (PT-BR).\n"

  /** The fields the output schema requires, in the order it lists them. */
  const REQUIRED_FIELDS: seq<string> := ["category", "confidence", "reason", "suggestedReply"]

  /** The client's configuration: the model identifier and the API key
      (null or empty when not configured). */
  datatype OpenAiClient = OpenAiClient(model: string, apiKey: Option<string>)

  /** What posting the request yields: a body (possibly null), an error
      status from the provider (RestClientResponseException), or another
      transport failure (RestClientException). */
  datatype HttpOutcome =
    | Body(body: Option<string>)
    | ErrorStatus(status: int, responseBody: Option<string>)
    | TransportFailure

  /** The I/O the client performs: the POST to "/responses", and Jackson's
      readTree and readValue, where `None` stands for an IOException and
      readValue's `Some(None)` for the JSON literal null. */
  datatype Io = Io(
    post: Json -> HttpOutcome,
    readTree: string -> Option<Json>,
    readValue: string -> Option<Option<AiAnalysisResponse>>)

  /** The key guard's condition: no key, or a blank one. */
  predicate MissingKey(client: OpenAiClient) {
    client.apiKey.None? || IsBlank(client.apiKey.value)
  }

  /** A non-null, non-blank string. */
  predicate NonBlank(s: Option<string>) {
    s.Some? && !IsBlank(s.value)
  }

  // ---------------------------------------------------------------- request

  /** The member `key` of a node that may be missing. */
  function Member(node: Option<Json>, key: string): Option<Json> {
    if node.Some? then Get(node.value, key) else None
  }

  /** A list of string nodes. */
  function Strings(ss: seq<string>): (r: seq<Json>)
    ensures |r| == |ss|
    ensures forall k :: 0 <= k < |ss| ==> r[k] == JString(ss[k])
  {
    if ss == [] then [] else [JString(ss[0])] + Strings(ss[1..])
  }

  /** One message of the request's `input`: a role and one input_text part. */
  function Message(role: string, text: string): Json {
    JObject(map[
      "role" := JString(role),
      "content" := JArray([JObject(map["type" := JString("input_text"), "text" := JString(text)])])])
  }

  /** The text parts of a message, in order. */
  function MessageTexts(message: Json): seq<Option<Json>> {
    var parts := Elements(Get(message, "content"));
    seq(|parts|, k requires 0 <= k < |parts| => Get(parts[k], "text"))
  }

  /** A message carries its role and its text as its only part. */
  lemma MessageShape(role: string, text: string)
    ensures Get(Message(role, text), "role") == Some(JString(role))
    ensures MessageTexts(Message(role, text)) == [Some(JString(text))]
  {
    var parts := Elements(Get(Message(role, text), "content"));
    assert |parts| == 1;
  }

  /** The schema of the `category` field: a string from the enumeration. */
  function CategorySchema(): Json {
    JObject(map["type" := JString("string"), "enum" := JArray(Strings(["PRODUTIVO", "IMPRODUTIVO"]))])
  }

  /** The schemas of the four fields. */
  function PropertySchemas(): Json {
    JObject(map[
      "category" := CategorySchema(),
      "confidence" := JObject(map[
        "type" := JString("number"), "minimum" := JNumber("0"), "maximum" := JNumber("1")]),
      "reason" := JObject(map["type" := JString("string")]),
      "suggestedReply" := JObject(map["type" := JString("string")])])
  }

  /** The strict output schema the request asks the model to follow. */
  function OutputSchema(): Json {
    JObject(map[
      "type" := JString("object"),
      "additionalProperties" := JBool(false),
      "properties" := PropertySchemas(),
      "required" := JArray(Strings(REQUIRED_FIELDS))])
  }

  /** The category may only be one of the enumeration's names. */
  lemma CategorySchemaShape()
    ensures Get(CategorySchema(), "enum") == Some(JArray(Strings([Name(PRODUTIVO), Name(IMPRODUTIVO)])))
  {
  }

  /** The schema describes exactly the four fields, requires all of them,
      allows no others, and limits the category to the enumeration's
      names. */
  lemma OutputSchemaShape()
    ensures Get(OutputSchema(), "additionalProperties") == Some(JBool(false))
    ensures Get(OutputSchema(), "required") == Some(JArray(Strings(REQUIRED_FIELDS)))
    ensures var properties := Get(OutputSchema(), "properties");
      && properties.Some? && properties.value.JObject?
      && properties.value.fields.Keys == set f | f in REQUIRED_FIELDS
    ensures Member(Member(Get(OutputSchema(), "properties"), "category"), "enum")
              == Some(JArray(Strings([Name(PRODUTIVO), Name(IMPRODUTIVO)])))
  {
    assert (set f | f in REQUIRED_FIELDS) == {"category", "confidence", "reason", "suggestedReply"};
    assert Get(OutputSchema(), "properties") == Some(PropertySchemas());
    assert Get(PropertySchemas(), "category") == Some(CategorySchema());
    CategorySchemaShape();
  }

  /** The `text.format` member: strict JSON-schema output. */
  function TextFormat(): Json {
    JObject(map["format" := JObject(map[
      "type" := JString("json_schema"),
      "strict" := JBool(true),
      "name" := JString("email_analysis"),
      "schema" := OutputSchema()])])
  }

  /** buildRequest. Member order is not modelled. */
  function BuildRequest(model: string, cleanedEmailText: string): Json {
    JObject(map[
      "model" := JString(model),
      "input" := JArray([Message("system", PROMPT_SYSTEM), Message("user", cleanedEmailText)]),
      "text" := TextFormat(),
      "temperature" := JNumber("0.2")])
  }

  /** The request carries the model, strict JSON-schema output with the
      schema of OutputSchemaShape, and temperature 0.2. */
  lemma BuildRequestShape(model: string, cleanedEmailText: string)
    ensures var request := BuildRequest(model, cleanedEmailText);
      && Get(request, "model") == Some(JString(model))
      && Get(request, "temperature") == Some(JNumber("0.2"))
    ensures var format := Member(Get(BuildRequest(model, cleanedEmailText), "text"), "format");
      && Member(format, "type") == Some(JString("json_schema"))
      && Member(format, "strict") == Some(JBool(true))
      && Member(format, "schema") == Some(OutputSchema())
  {
    assert Get(BuildRequest(model, cleanedEmailText), "text") == Some(TextFormat());
  }

  /** The request's input is the system instruction followed by the user's
      text, as the only two messages. */
  lemma BuildRequestMessages(model: string, cleanedEmailText: string)
    ensures var input := Elements(Get(BuildRequest(model, cleanedEmailText), "input"));
      && |input| == 2
      && Get(input[0], "role") == Some(JString("system"))
      && MessageTexts(input[0]) == [Some(JString(PROMPT_SYSTEM))]
      && Get(input[1], "role") == Some(JString("user"))
      && MessageTexts(input[1]) == [Some(JString(cleanedEmailText))]
  {
    var input := [Message("system", PROMPT_SYSTEM), Message("user", cleanedEmailText)];
    assert Get(BuildRequest(model, cleanedEmailText), "input") == Some(JArray(input));
    MessageShape("system", PROMPT_SYSTEM);
    MessageShape("user", cleanedEmailText);
  }

  /** safeLength: the UTF-16 length of a string, 0 for null. */
  function SafeLength(value: Option<string>): (n: nat)
    ensures value.None? ==> n == 0
    ensures value.Some? ==> |value.value| <= n <= 2 * |value.value|
  {
    if value.None? then 0
    else
      Utf16LengthBounds(value.value);
      Utf16Length(value.value)
  }

  // ---------------------------------------------------------------- response

  /** The text of a content part: its `text` member, when textual. */
  function PartText(part: Json): Option<string> {
    match Get(part, "text")
    case Some(JString(s)) => Some(s)
    case _ => None
  }

  /** The first textual part, scanning in order. */
  function FirstPartText(parts: seq<Json>): Option<string> {
    if parts == [] then None
    else if PartText(parts[0]).Some? then PartText(parts[0])
    else FirstPartText(parts[1..])
  }

  /** The content parts of an output item: its `content` array, or none. */
  function ContentParts(item: Json): seq<Json> {
    Elements(Get(item, "content"))
  }

  /** The first textual part of the first item that has one. */
  function FirstItemText(items: seq<Json>): Option<string> {
    if items == [] then None
    else if FirstPartText(ContentParts(items[0])).Some? then FirstPartText(ContentParts(items[0]))
    else FirstItemText(items[1..])
  }

  /** Every content part of every output item, items in order and each
      item's parts in order. */
  function AllParts(items: seq<Json>): seq<Json> {
    if items == [] then [] else ContentParts(items[0]) + AllParts(items[1..])
  }

  /** FirstPartText returns the text of the first textual part, and nothing
      exactly when no part is textual. */
  lemma {:induction false} FirstPartTextIsFirst(parts: seq<Json>)
    ensures FirstPartText(parts).None? <==> forall k :: 0 <= k < |parts| ==> PartText(parts[k]).None?
    ensures forall j :: 0 <= j < |parts| && PartText(parts[j]).Some?
                        && (forall k :: 0 <= k < j ==> PartText(parts[k]).None?) ==>
              FirstPartText(parts) == PartText(parts[j])
  {
    if parts != [] {
      FirstPartTextIsFirst(parts[1..]);
      assert forall k :: 1 <= k < |parts| ==> parts[1..][k - 1] == parts[k];
      forall j | 0 < j < |parts| && PartText(parts[j]).Some?
                 && (forall k :: 0 <= k < j ==> PartText(parts[k]).None?)
        ensures FirstPartText(parts) == PartText(parts[j])
      {
        assert parts[1..][j - 1] == parts[j];
      }
    }
  }

  /** Scanning a concatenation finds the first part's text if it has one,
      and otherwise the second's. */
  lemma {:induction false} FirstPartTextAppend(a: seq<Json>, b: seq<Json>)
    ensures FirstPartText(a + b) == if FirstPartText(a).Some? then FirstPartText(a) else FirstPartText(b)
  {
    if a != [] {
      assert (a + b)[1..] == a[1..] + b;
      FirstPartTextAppend(a[1..], b);
    } else {
      assert a + b == b;
    }
  }

  /** The nested scan of output items is one scan over all their parts in
      order: the first textual `text` of the first item that has one. */
  lemma {:induction false} FirstItemTextScansAllParts(items: seq<Json>)
    ensures FirstItemText(items) == FirstPartText(AllParts(items))
  {
    if items != [] {
      FirstItemTextScansAllParts(items[1..]);
      FirstPartTextAppend(ContentParts(items[0]), AllParts(items[1..]));
    }
  }

  /** The top-level shape: a textual `output_text` as it is, or the text of
      the first element of a non-empty `output_text` array. */
  function TopLevelText(root: Json): Option<string> {
    match Get(root, "output_text")
    case Some(JString(s)) => Some(s)
    case Some(JArray(xs)) => if |xs| > 0 then Some(AsText(xs[0])) else None
    case _ => None
  }

  /** Where the structured payload is: the top-level shape first, then the
      nested `output[].content[].text` shape. */
  function Payload(root: Json): Option<string> {
    if TopLevelText(root).Some? then TopLevelText(root)
    else FirstItemText(Elements(Get(root, "output")))
  }

  /** A textual top-level `output_text` is the payload as it is, blank or
      not, whatever `output` holds. */
  lemma TextualOutputTextWins(fields: map<string, Json>, text: string, output: Json)
    requires "output_text" in fields && fields["output_text"] == JString(text)
    ensures Payload(JObject(fields["output" := output])) == Some(text)
  {
  }

  /** A non-empty `output_text` array yields the text of its first element,
      whatever `output` holds. */
  lemma OutputTextArrayYieldsFirst(root: Json)
    requires Get(root, "output_text").Some? && Get(root, "output_text").value.JArray?
    requires |Get(root, "output_text").value.items| > 0
    ensures Payload(root) == Some(AsText(Get(root, "output_text").value.items[0]))
  {
  }

  /** When `output_text` is absent, null, a number or an empty array, the
      payload is the first textual `text` among all parts of all `output`
      items, or nothing. */
  lemma NestedShapeWhenNoTopLevel(root: Json)
    requires TopLevelText(root).None?
    ensures Payload(root) == FirstPartText(AllParts(Elements(Get(root, "output"))))
  {
    FirstItemTextScansAllParts(Elements(Get(root, "output")));
  }

  /** The envelope search of extractOutputText after the tree has been read,
      as the source writes it: two guarded lookups, then two nested loops
      that return at the first textual `text`. */
  method LocatePayload(root: Json) returns (text: Option<string>)
    ensures text == Payload(root)
  {
    var outputText := Get(root, "output_text");
    if outputText.Some? {
      if IsTextual(outputText.value) {
        return Some(AsText(outputText.value));
      }
      if outputText.value.JArray? && |outputText.value.items| > 0 {
        return Some(AsText(outputText.value.items[0]));
      }
    }
    var output := Get(root, "output");
    if output.Some? && output.value.JArray? {
      var items := output.value.items;
      for i := 0 to |items|
        invariant FirstItemText(items) == FirstItemText(items[i..])
      {
        assert items[i..][1..] == items[i + 1..];
        var content := Get(items[i], "content");
        if content.Some? && content.value.JArray? {
          var parts := content.value.items;
          for j := 0 to |parts|
            invariant FirstPartText(parts) == FirstPartText(parts[j..])
          {
            assert parts[j..][1..] == parts[j + 1..];
            var t := Get(parts[j], "text");
            if t.Some? && IsTextual(t.value) {
              return Some(AsText(t.value));
            }
          }
        }
      }
    }
    return None;
  }

  /** The result of extractOutputText: the located text (possibly null), or
      an IOException from reading the body as JSON. */
  datatype Located = Located(text: Option<string>) | Unreadable

  /** extractOutputText: a null or blank body locates nothing; otherwise the
      body is read as a JSON tree and searched. */
  function ExtractOutputText(readTree: string -> Option<Json>, responseBody: Option<string>): (r: Located)
    ensures responseBody.None? || IsBlank(responseBody.value) ==> r == Located(None)
    ensures r == Unreadable <==> NonBlank(responseBody) && readTree(responseBody.value).None?
    ensures NonBlank(responseBody) && readTree(responseBody.value).Some? ==>
              r == Located(Payload(readTree(responseBody.value).value))
  {
    if responseBody.None? || IsBlank(responseBody.value) then Located(None)
    else match readTree(responseBody.value)
      case None => Unreadable
      case Some(root) => Located(Payload(root))
  }

  /** The three ways analyze fails. Each is thrown as an
      IllegalStateException carrying the failure's message. */
  datatype Failure = NoApiKey | RequestFailure | InvalidPayload

  /** The message each failure carries. */
  function FailureMessage(f: Failure): (message: string)
    ensures f.NoApiKey? <==> message == MSG_NO_API_KEY
    ensures f.RequestFailure? <==> message == MSG_AI_FAILURE
    ensures f.InvalidPayload? <==> message == MSG_AI_INVALID
  {
    assert MSG_AI_FAILURE[0] != MSG_AI_INVALID[0];
    match f
    case NoApiKey => MSG_NO_API_KEY
    case RequestFailure => MSG_AI_FAILURE
    case InvalidPayload => MSG_AI_INVALID
  }

  /** What a call of analyze comes to: the response it returns, or the
      failure it throws. */
  datatype Reply = Answer(response: Option<AiAnalysisResponse>) | Failed(failure: Failure)

  /** validateResponse: none when the response passes, otherwise the failure
      it throws. Only presence and non-blankness are checked. */
  function ValidateResponse(response: Option<AiAnalysisResponse>): (failure: Option<Failure>)
    ensures failure.None? <==>
              && response.Some?
              && NonBlank(response.value.category)
              && NonBlank(response.value.reason)
              && NonBlank(response.value.suggestedReply)
    ensures failure.Some? ==> failure.value == InvalidPayload
  {
    if response.None? then Some(InvalidPayload)
    else if !NonBlank(response.value.category) then Some(InvalidPayload)
    else if !NonBlank(response.value.reason) then Some(InvalidPayload)
    else if !NonBlank(response.value.suggestedReply) then Some(InvalidPayload)
    else None
  }

  /** The steps of analyze: the key guard, the POST, locating the payload,
      reading it and validating it. */
  function Respond(client: OpenAiClient, io: Io, cleanedEmailText: string): (reply: Reply)
    ensures MissingKey(client) ==> reply == Failed(NoApiKey)
    ensures reply.Answer? ==> reply.response.Some? && ValidateResponse(reply.response).None?
    ensures !MissingKey(client) ==>
              var sent := io.post(BuildRequest(client.model, cleanedEmailText));
              && (!sent.Body? ==> reply == Failed(RequestFailure))
              && (sent.Body? && ExtractOutputText(io.readTree, sent.body) == Unreadable ==>
                    reply == Failed(InvalidPayload))
              && (sent.Body? && ExtractOutputText(io.readTree, sent.body).Located?
                  && !NonBlank(ExtractOutputText(io.readTree, sent.body).text) ==>
                    reply == Failed(InvalidPayload))
    ensures reply.Failed? && reply.failure.RequestFailure? ==>
              !MissingKey(client) && !io.post(BuildRequest(client.model, cleanedEmailText)).Body?
  {
    if MissingKey(client) then Failed(NoApiKey)
    else
      match io.post(BuildRequest(client.model, cleanedEmailText))
      case ErrorStatus(_, _) => Failed(RequestFailure)
      case TransportFailure => Failed(RequestFailure)
      case Body(body) =>
        match ExtractOutputText(io.readTree, body)
        case Unreadable => Failed(InvalidPayload)
        case Located(outputText) =>
          if !NonBlank(outputText) then Failed(InvalidPayload)
          else match io.readValue(outputText.value)
            case None => Failed(InvalidPayload)
            case Some(response) =>
              match ValidateResponse(response)
              case Some(failure) => Failed(failure)
              case None => Answer(response)
  }

  /** analyze: the response, or the IllegalStateException it throws. */
  function Analyze(client: OpenAiClient, io: Io, cleanedEmailText: string): (r: Result<Option<AiAnalysisResponse>>)
    ensures MissingKey(client) ==> r == Err(IllegalState(MSG_NO_API_KEY))
    ensures r.Err? ==> r.error.IllegalState?
                       && r.error.message in {MSG_NO_API_KEY, MSG_AI_FAILURE, MSG_AI_INVALID}
    ensures r.Ok? ==> r.value.Some? && ValidateResponse(r.value).None?
  {
    match Respond(client, io, cleanedEmailText)
    case Answer(response) => Ok(response)
    case Failed(failure) => Err(IllegalState(FailureMessage(failure)))
  }

  /** Analyze returns a response exactly when the key is present, the POST
      yields a body, a non-blank payload is located in it, that payload
      reads as this response, and the response passes validation. */
  lemma AnalyzeSucceedsExactly(client: OpenAiClient, io: Io, cleanedEmailText: string, response: AiAnalysisResponse)
    ensures Analyze(client, io, cleanedEmailText) == Ok(Some(response)) <==>
              && !MissingKey(client)
              && io.post(BuildRequest(client.model, cleanedEmailText)).Body?
              && var located := ExtractOutputText(io.readTree, io.post(BuildRequest(client.model, cleanedEmailText)).body);
                 && located.Located?
                 && NonBlank(located.text)
                 && io.readValue(located.text.value) == Some(Some(response))
                 && ValidateResponse(Some(response)).None?
  {
  }

  /** Every provider or transport failure, and only those, leaves with the
      "request failed" message; every unusable payload leaves with the
      "invalid response" message. */
  lemma AnalyzeFailureMessages(client: OpenAiClient, io: Io, cleanedEmailText: string)
    requires !MissingKey(client)
    ensures var sent := io.post(BuildRequest(client.model, cleanedEmailText));
            Analyze(client, io, cleanedEmailText) == Err(IllegalState(MSG_AI_FAILURE)) <==> !sent.Body?
    ensures var sent := io.post(BuildRequest(client.model, cleanedEmailText));
            sent.Body? ==> Analyze(client, io, cleanedEmailText).Ok?
                           || Analyze(client, io, cleanedEmailText) == Err(IllegalState(MSG_AI_INVALID))
  {
    var reply := Respond(client, io, cleanedEmailText);
    if reply.Failed? {
      assert FailureMessage(reply.failure) == MSG_AI_FAILURE <==> reply.failure.RequestFailure?;
    }
  }

  /** The key guard comes first: without a key the outcome does not depend
      on anything the I/O would do, so nothing is built or sent. */
  lemma MissingKeyPrecedesIo(client: OpenAiClient, io: Io, other: Io, cleanedEmailText: string)
    requires MissingKey(client)
    ensures Analyze(client, io, cleanedEmailText) == Analyze(client, other, cleanedEmailText)
                                                == Err(IllegalState(MSG_NO_API_KEY))
  {
  }

  /** Validation looks neither at the confidence nor at whether the category
      is one of the enumeration's names: two responses with non-blank
      categories and the same reason and reply fare the same. */
  lemma ValidationIgnoresConfidenceAndLabel(a: AiAnalysisResponse, b: AiAnalysisResponse)
    requires NonBlank(a.category) && NonBlank(b.category)
    requires a.reason == b.reason && a.suggestedReply == b.suggestedReply
    ensures ValidateResponse(Some(a)) == ValidateResponse(Some(b))
  {
  }

  // ------------------------------------------------ corrected failure types

  /** The typed exception each failure evidently stands for, keeping its
      message: the missing key as "not configured", a provider or transport
      failure as "request failed", an unusable payload as "invalid
      response". */
  function Retyped(f: Failure): (e: Exception)
    ensures e.message == FailureMessage(f)
    ensures f.NoApiKey? <==> e.AiNotConfigured?
    ensures f.RequestFailure? <==> e.AiRequestFailed?
    ensures f.InvalidPayload? <==> e.InvalidAiResponse?
  {
    match f
    case NoApiKey => AiNotConfigured(MSG_NO_API_KEY)
    case RequestFailure => AiRequestFailed(MSG_AI_FAILURE)
    case InvalidPayload => InvalidAiResponse(MSG_AI_INVALID)
  }

  /** analyze with its failures thrown as the application's typed
      exceptions: the same call, the same successes, the same messages. */
  function AnalyzeTyped(client: OpenAiClient, io: Io, cleanedEmailText: string): (r: Result<Option<AiAnalysisResponse>>)
    ensures MissingKey(client) ==> r == Err(AiNotConfigured(MSG_NO_API_KEY))
    ensures r.Ok? <==> Analyze(client, io, cleanedEmailText).Ok?
    ensures r.Ok? ==> r == Analyze(client, io, cleanedEmailText)
    ensures r.Err? ==> r.error.AiNotConfigured? || r.error.AiRequestFailed? || r.error.InvalidAiResponse?
    ensures r.Err? ==> r.error.message == Analyze(client, io, cleanedEmailText).error.message
  {
    match Respond(client, io, cleanedEmailText)
    case Answer(response) => Ok(response)
    case Failed(failure) => Err(Retyped(failure))
  }
}
