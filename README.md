# autou-email-ai analysis pipeline in Dafny

A model of the decision logic of the autou-email-ai Spring application. The
user submits an email as pasted text or as an uploaded `.txt`/`.pdf` file.
The application checks the input and extracts the text with the first file
extractor that accepts it. It then strips control characters and
surrounding whitespace and asks an OpenAI classifier for a category
(`PRODUTIVO` or `IMPRODUTIVO`), a confidence, a reason and a suggested
reply. It returns either that analysis or exactly one typed failure.

Modules, one per part of the program:

- `Lang`: a nullable reference (`Option`), the runtime exceptions that cross the pipeline (class and message), a call that returns or throws (`Result`), and bytes.
- `JavaStrings`: the `java.lang.String` operations the code relies on.
  - `strip`, `trim`, `isBlank`, `endsWith`, `equalsIgnoreCase` and `length` in UTF-16 units are written out.
  - The Unicode tables, the locale-dependent case mappings and NFKC are parameters, bundled as `UnicodeData`.
- `Json`: the JSON tree (Jackson's `JsonNode`) with `get`, `isTextual` and `asText`.
- `Domain`: `EmailCategory`, `AiAnalysisResponse` and `EmailAnalysisResult`.
- `Ports`: the `FileTextExtractor` and `AiClient` ports, as values.
- `TxtExtractor` and `PdfExtractor`: the two extractors.
- `OpenAi`: the classifier client.
  - The key guard, the request it builds, the search for the payload in the response envelope, validation, and the mapping of failures to messages.
  - The HTTP round trip and Jackson's parsers are the `Io` parameter.
- `EmailAnalysis`: the service.
  - Each operation returns a `Run`: the outcome plus the port calls made, in order. This makes "never consulted" statable.
- `Wiring`: the service assembled with the real client and extractors, and the finding below.

Notable behaviour of the code:

- A textual top-level `output_text` is the payload even when it is blank. The client then fails with "invalid response" and does not fall back to the nested `output` shape.
- The category labels are `PRODUTIVO`/`IMPRODUTIVO`.
- Input failures are `IllegalArgumentException` (text) and `InvalidFileException` (file).
- Only the client checks that the reason and the reply are non-blank; the service copies them as they are.

The `EmailCategory` enum is not part of this model. Its constants are taken
to be the two labels the request schema allows
(`OpenAiClient.java` line 93), and `valueOf` is taken to accept exactly those
names.

## Model

| member | source | states |
|---|---|---|
| `Domain.ValueOf` | src/main/java/com/autou/emailai/application/EmailAnalysisService.java:104 | `valueOf` yields exactly the constant whose name equals the argument, and none when no constant has that name |
| `JavaStrings.TrimBy` | src/main/java/com/autou/emailai/application/EmailAnalysisService.java:47 | stripping keeps the infix after the leading run: the result is empty iff every character is stripped, and otherwise neither end is strippable |
| `JavaStrings.Strip` | src/main/java/com/autou/emailai/application/EmailAnalysisService.java:47 | `strip()` is empty exactly when the text is blank (whitespace by `Character.isWhitespace`), and otherwise starts and ends with non-whitespace |
| `JavaStrings.Trim` | src/main/java/com/autou/emailai/application/EmailAnalysisService.java:104 | `trim()` leaves no character at or below U+0020 at either end |
| `JavaStrings.TrimByIdempotent` | src/main/java/com/autou/emailai/application/EmailAnalysisService.java:47 | stripping a stripped text changes nothing |
| `JavaStrings.StripKeeps` | src/main/java/com/autou/emailai/application/EmailAnalysisService.java:76 | every character of the stripped text comes from the text, so a property of all the text's characters survives stripping |
| `JavaStrings.Utf16LengthBounds` | src/main/java/com/autou/emailai/infrastructure/ai/OpenAiClient.java:176-178 | `length()` lies between the code-point count and twice it, and equals the count iff no character needs a surrogate pair |
| `Json.Get` | src/main/java/com/autou/emailai/infrastructure/ai/OpenAiClient.java:133 | `get(key)` is non-null exactly on an object that has the member |
| `TxtExtractor.Extract` | src/main/java/com/autou/emailai/infrastructure/file/TxtTextExtractor.java:20-22 | extraction never throws and never returns null: it is the UTF-8 decoding of the bytes |
| `TxtExtractor.NothingKnownIsUnsupported` | src/main/java/com/autou/emailai/infrastructure/file/TxtTextExtractor.java:12-17 | with neither filename nor content type, the input is not supported |
| `TxtExtractor.ParameterizedTypeUnsupported` | src/main/java/com/autou/emailai/infrastructure/file/TxtTextExtractor.java:16 | the content type is compared whole: `text/plain; charset=utf-8` alone is not supported |
| `TxtExtractor.SuffixDecides` | src/main/java/com/autou/emailai/infrastructure/file/TxtTextExtractor.java:13-15 | a filename whose lower-cased form ends in `.txt` is supported whatever the content type |
| `TxtExtractor.ContentTypeDecides` | src/main/java/com/autou/emailai/infrastructure/file/TxtTextExtractor.java:16 | without a matching filename, supported iff the content type equals `text/plain` ignoring case |
| `TxtExtractor.UpperCaseTypeSupported` | src/main/java/com/autou/emailai/infrastructure/file/TxtTextExtractor.java:16 | the comparison ignores case: `TEXT/Plain` is supported under the usual ASCII case tables |
| `PdfExtractor.Extract` | src/main/java/com/autou/emailai/infrastructure/file/PdfTextExtractor.java:23-30 | extraction throws iff the library fails, and then with `IllegalArgumentException` and the fixed message; otherwise it returns the stripped text |
| `PdfExtractor.NothingKnownIsUnsupported` | src/main/java/com/autou/emailai/infrastructure/file/PdfTextExtractor.java:15-20 | with neither filename nor content type, the input is not supported |
| `PdfExtractor.SuffixDecides` | src/main/java/com/autou/emailai/infrastructure/file/PdfTextExtractor.java:16-18 | a filename whose lower-cased form ends in `.pdf` is supported whatever the content type |
| `PdfExtractor.ContentTypeDecides` | src/main/java/com/autou/emailai/infrastructure/file/PdfTextExtractor.java:19 | without a matching filename, supported iff the content type equals `application/pdf` ignoring case |
| `OpenAi.MessageShape` | src/main/java/com/autou/emailai/infrastructure/ai/OpenAiClient.java:109-116 | a message carries its role and its text as its only `input_text` part |
| `OpenAi.CategorySchemaShape` | src/main/java/com/autou/emailai/infrastructure/ai/OpenAiClient.java:93 | the category enumeration is exactly the names of the two categories |
| `OpenAi.OutputSchemaShape` | src/main/java/com/autou/emailai/infrastructure/ai/OpenAiClient.java:89-98 | the schema has properties for exactly the four fields, requires all four in order, forbids others, and limits the category to the enumeration's names |
| `OpenAi.BuildRequestShape` | src/main/java/com/autou/emailai/infrastructure/ai/OpenAiClient.java:100-123 | the request names the model, asks for strict `json_schema` output with that schema, and sets temperature 0.2 |
| `OpenAi.BuildRequestMessages` | src/main/java/com/autou/emailai/infrastructure/ai/OpenAiClient.java:109-120 | `input` is exactly `[system, user]`, in that order: the system instruction, then the cleaned text unchanged |
| `OpenAi.SafeLength` | src/main/java/com/autou/emailai/infrastructure/ai/OpenAiClient.java:176-178 | `safeLength(null)` is 0; otherwise it lies between the code-point count and twice it |
| `OpenAi.FirstPartTextIsFirst` | src/main/java/com/autou/emailai/infrastructure/ai/OpenAiClient.java:148-153 | the part scan returns the text of the first textual part, and nothing iff no part is textual |
| `OpenAi.FirstPartTextAppend` | src/main/java/com/autou/emailai/infrastructure/ai/OpenAiClient.java:148-153 | scanning a concatenation finds the first half's text if it has one, else the second half's |
| `OpenAi.FirstItemTextScansAllParts` | src/main/java/com/autou/emailai/infrastructure/ai/OpenAiClient.java:145-155 | the nested item/part scan equals one in-order scan over all parts of all items |
| `OpenAi.TextualOutputTextWins` | src/main/java/com/autou/emailai/infrastructure/ai/OpenAiClient.java:133-137 | a textual top-level `output_text` is the payload as it is, blank or not, whatever `output` holds |
| `OpenAi.OutputTextArrayYieldsFirst` | src/main/java/com/autou/emailai/infrastructure/ai/OpenAiClient.java:138-140 | a non-empty `output_text` array yields its first element's text |
| `OpenAi.NestedShapeWhenNoTopLevel` | src/main/java/com/autou/emailai/infrastructure/ai/OpenAiClient.java:143-158 | without a usable `output_text`, the payload is the first textual `text` among all parts of all `output` items, or nothing |
| `OpenAi.LocatePayload` | src/main/java/com/autou/emailai/infrastructure/ai/OpenAiClient.java:131-158 | the search with its two nested loops and early returns finds exactly `Payload(root)` |
| `OpenAi.ExtractOutputText` | src/main/java/com/autou/emailai/infrastructure/ai/OpenAiClient.java:126-159 | a null or blank body locates nothing; a non-blank body is a parse failure iff it cannot be read, and otherwise locates exactly the payload of its tree |
| `OpenAi.FailureMessage` | src/main/java/com/autou/emailai/infrastructure/ai/OpenAiClient.java:25-27 | the three failures carry three distinct messages, each one's own |
| `OpenAi.ValidateResponse` | src/main/java/com/autou/emailai/infrastructure/ai/OpenAiClient.java:161-174 | passes iff the response is non-null and category, reason and reply are all non-null and non-blank; otherwise fails with the "invalid response" message |
| `OpenAi.Respond` | src/main/java/com/autou/emailai/infrastructure/ai/OpenAiClient.java:53-86 | a missing key fails first; provider or transport errors are "request failed"; an unreadable body or a blank or missing payload is "invalid response"; a returned response is non-null and validated |
| `OpenAi.Analyze` | src/main/java/com/autou/emailai/infrastructure/ai/OpenAiClient.java:53-86 | every failure is an `IllegalStateException` carrying one of the three messages; a missing key gives `MSG_NO_API_KEY` |
| `OpenAi.AnalyzeSucceedsExactly` | src/main/java/com/autou/emailai/infrastructure/ai/OpenAiClient.java:54-75 | a response is returned iff the key is present, the POST yields a body, a non-blank payload is found, it reads as that response, and the response validates |
| `OpenAi.AnalyzeFailureMessages` | src/main/java/com/autou/emailai/infrastructure/ai/OpenAiClient.java:68-85 | with a key, "request failed" comes exactly from provider or transport errors; once a body arrives, every failure is "invalid response" |
| `OpenAi.MissingKeyPrecedesIo` | src/main/java/com/autou/emailai/infrastructure/ai/OpenAiClient.java:54-58 | without a key, the outcome is the same whatever the I/O would do |
| `OpenAi.ValidationIgnoresConfidenceAndLabel` | src/main/java/com/autou/emailai/infrastructure/ai/OpenAiClient.java:161-174 | validation ignores the confidence and whether the category is a known label |
| `OpenAi.Retyped` | src/main/java/com/autou/emailai/infrastructure/ai/OpenAiClient.java:54-85 | each client failure maps to its typed exception, one-to-one, keeping its message (the corrected form of the finding) |
| `OpenAi.AnalyzeTyped` | src/main/java/com/autou/emailai/infrastructure/ai/OpenAiClient.java:53-86 | the same successes as `analyze` and the same messages, but failures thrown as `AiNotConfigured`, `AiRequestFailed` or `InvalidAiResponse`; a missing key is "not configured" |
| `EmailAnalysis.KeepPrintable` | src/main/java/com/autou/emailai/application/EmailAnalysisService.java:129 | the filter leaves only kept characters (outside category C, or newline, carriage return, tab) and never lengthens the text |
| `EmailAnalysis.KeepPrintableAppend` | src/main/java/com/autou/emailai/application/EmailAnalysisService.java:129 | the filter works piece by piece, so surviving characters keep their original order |
| `EmailAnalysis.KeepPrintableCounts` | src/main/java/com/autou/emailai/application/EmailAnalysisService.java:129 | every kept character survives as often as it occurs; every other character is removed |
| `EmailAnalysis.KeepPrintableFixpoint` | src/main/java/com/autou/emailai/application/EmailAnalysisService.java:129 | the text is unchanged iff it has nothing to remove |
| `EmailAnalysis.KeepPrintableIdempotent` | src/main/java/com/autou/emailai/application/EmailAnalysisService.java:129 | filtering twice removes nothing more |
| `EmailAnalysis.NormalizeUnicode` | src/main/java/com/autou/emailai/application/EmailAnalysisService.java:124-130 | null becomes `""`; otherwise the result is the filtered NFKC form, all of whose characters are kept ones |
| `EmailAnalysis.ResolveCategory` | src/main/java/com/autou/emailai/application/EmailAnalysisService.java:99-108 | a null or blank label is "invalid category"; otherwise success iff the trimmed, upper-cased label is exactly a category's name, which is then the result; no default |
| `EmailAnalysis.ToDomain` | src/main/java/com/autou/emailai/application/EmailAnalysisService.java:83-97 | null is "invalid response"; otherwise success iff the category resolves, a label that does not resolve is "invalid category" unchanged, and on success confidence, reason and reply are copied unchanged with the tag `openai` |
| `EmailAnalysis.Translate` | src/main/java/com/autou/emailai/application/EmailAnalysisService.java:114-121 | the four typed exceptions pass unchanged (including toDomain's), any other becomes "request failed", and a response goes through toDomain |
| `EmailAnalysis.AnalyzeWithAi` | src/main/java/com/autou/emailai/application/EmailAnalysisService.java:110-122 | no client: "not configured" with no call; otherwise exactly one client call with the text, its answer translated; every failure is one of the four AI exceptions |
| `EmailAnalysis.AnalyzeText` | src/main/java/com/autou/emailai/application/EmailAnalysisService.java:45-52 | "text required" iff the text is null or blank, with no client call; otherwise the client receives exactly the stripped, non-empty text |
| `EmailAnalysis.FirstSupporting` | src/main/java/com/autou/emailai/application/EmailAnalysisService.java:60-63 | picks the first extractor in list order that supports the input; none iff no extractor does |
| `EmailAnalysis.SupportsCalls` | src/main/java/com/autou/emailai/application/EmailAnalysisService.java:60-63 | the lazy stream asks the capability tests of the first n extractors, in order |
| `EmailAnalysis.CleanedText` | src/main/java/com/autou/emailai/application/EmailAnalysisService.java:76 | the text sent on has only kept characters and no whitespace at either end |
| `EmailAnalysis.ClassifyExtracted` | src/main/java/com/autou/emailai/application/EmailAnalysisService.java:76-80 | text that cleans to nothing is "empty text" with no client call; otherwise the client is asked with the cleaned text |
| `EmailAnalysis.ExtractAndClassify` | src/main/java/com/autou/emailai/application/EmailAnalysisService.java:69-80 | the chosen extractor is asked to extract; any exception there is "extraction failed" and nothing else is called |
| `EmailAnalysis.AnalyzeFile` | src/main/java/com/autou/emailai/application/EmailAnalysisService.java:54-81 | missing or empty bytes fail with "file required" before any extractor is asked; every failure is one of the four file failures or an AI failure |
| `EmailAnalysis.FileRequiredExactly` | src/main/java/com/autou/emailai/application/EmailAnalysisService.java:56-58 | "file required" iff the bytes are null or empty |
| `EmailAnalysis.UnsupportedExactly` | src/main/java/com/autou/emailai/application/EmailAnalysisService.java:60-67 | "unsupported" iff there are bytes and no extractor supports the input; then every test was asked once, in order, and nothing was extracted |
| `EmailAnalysis.FirstSupportingPicks` | src/main/java/com/autou/emailai/application/EmailAnalysisService.java:60-63 | the extractor that supports the input while no earlier one does is the one picked |
| `EmailAnalysis.FirstSupportingIsExtracted` | src/main/java/com/autou/emailai/application/EmailAnalysisService.java:60-74 | the run asks the tests up to the first supporting extractor, then that extractor's extraction, then at most the client |
| `EmailAnalysis.ExtractionFailureStops` | src/main/java/com/autou/emailai/application/EmailAnalysisService.java:69-74 | an exception from extraction is "extraction failed" and the client is never called |
| `EmailAnalysis.EmptyTextStops` | src/main/java/com/autou/emailai/application/EmailAnalysisService.java:76-78 | text that normalises to blank is "empty text" and the client is never called |
| `EmailAnalysis.ExtractedTextReachesClassifier` | src/main/java/com/autou/emailai/application/EmailAnalysisService.java:76-80 | usable extracted text reaches the client exactly once, cleaned, and the outcome is what analyzeWithAi makes of its answer |
| `EmailAnalysis.NoDefaultCategory` | src/main/java/com/autou/emailai/application/EmailAnalysisService.java:99-108 | a successful result's category is the client's label, trimmed and upper-cased: never substituted |
| `EmailAnalysis.NoClientNoResult` | src/main/java/com/autou/emailai/application/EmailAnalysisService.java:110-113 | without a client neither operation ever produces a result; non-blank text fails with "not configured" and no call |
| `Wiring.MissingKeySurfacesAsRequestFailed` | src/main/java/com/autou/emailai/infrastructure/ai/OpenAiClient.java:54-56 | as written, a missing key reaches the caller as "request failed", not as the key's own message |
| `Wiring.TypedMissingKeyIsNotConfigured` | src/main/java/com/autou/emailai/infrastructure/ai/OpenAiClient.java:54-56 | with typed client failures, a missing key reaches the caller as exactly "not configured" |
| `Wiring.UnusablePayloadSurfacesAsRequestFailed` | src/main/java/com/autou/emailai/infrastructure/ai/OpenAiClient.java:68-71 | as written, a blank or missing payload reaches the caller as "request failed" |
| `Wiring.TypedUnusablePayloadIsInvalidResponse` | src/main/java/com/autou/emailai/infrastructure/ai/OpenAiClient.java:68-71 | with typed client failures, a blank or missing payload reaches the caller as exactly "invalid response" |
| `Wiring.AssembledResultsCarryText` | src/main/java/com/autou/emailai/infrastructure/ai/OpenAiClient.java:161-174 | through the OpenAI client every successful analysis has a non-blank reason and reply |
| `Wiring.ListOrderDecides` | src/main/java/com/autou/emailai/infrastructure/file/PdfTextExtractor.java:16-19 | `a.txt` sent as `application/pdf` is supported by both extractors, so whichever is registered first extracts it |
| `Wiring.UnreadablePdfIsExtractionFailed` | src/main/java/com/autou/emailai/infrastructure/file/PdfTextExtractor.java:24-29 | a PDF the library cannot read ends as "extraction failed" after one test and one extraction |
| `Wiring.TextFilesNeverFailExtraction` | src/main/java/com/autou/emailai/infrastructure/file/TxtTextExtractor.java:20-22 | the text extractor never makes a run fail with "extraction failed" |

## Left out

- HTTP: the POST to `/responses`, its headers and base URL (RestClient and its configuration) are the `Io.post` parameter. Its result is a body, an error status, or a transport failure.
- Jackson: `readTree` and `readValue` are `Io` parameters that return a tree or object, or nothing for an `IOException`. JSON syntax, and the member order the request maps keep, are not modelled.
- PDFBox: loading and text stripping are one parameter that returns the text or nothing for an `IOException`. UTF-8 decoding is a parameter too.
- Unicode: NFKC, the category-C table, `Character.toUpperCase`/`toLowerCase`, `String.toLowerCase()` in the default locale and `toUpperCase(Locale.ROOT)` are parameters (`UnicodeData`), not tables.
- Idempotence of the whole normalisation is not claimed: removing format characters can enable new NFKC compositions. Only the filter step's idempotence is proved.
- `JavaStrings.Utf16Length`: strings are sequences of code points, so lone surrogates cannot be represented.
- Floating point: `confidence` is only copied, and is kept as its 64-bit pattern. The request's temperature `0.2` is kept as its JSON text.
- Logging is left out, including the status and body length logged on provider errors. `safeLength` is modelled but its use in the log call is not.
- Order of extractors: Spring fixes the list order of injected extractors, and that order is a parameter here.
- The exception hierarchy: the four AI exception classes and `InvalidFileException` are taken to be distinct `RuntimeException` subclasses that are not `IllegalStateException` or `IllegalArgumentException`. Their source is not part of this model.
- Exceptions thrown by a `supports` test, and `Error`s (as opposed to `RuntimeException`s) thrown anywhere, are not modelled.
- The web controllers, the exception handler that renders messages, the configuration, and the unused legacy ports in `application/ports` are outside the model.

## Findings

| source | as written | input that shows it | evidently intended | confidence | as-written member | corrected member |
|---|---|---|---|---|---|---|
| src/main/java/com/autou/emailai/infrastructure/ai/OpenAiClient.java:54-56 | a missing key throws `IllegalStateException("Chave de IA nao configurada.")`; `analyzeWithAi` (EmailAnalysisService.java:119-120) does not pass that class through, so the user sees "Falha ao consultar a IA. Tente novamente." | a blank `openai.api-key` and the text `"Oi"` | `AiNotConfiguredException` with the same text as the service's own `MSG_AI_NOT_CONFIGURED` | medium; not executed | `Wiring.MissingKeySurfacesAsRequestFailed` | `Wiring.TypedMissingKeyIsNotConfigured` |
| src/main/java/com/autou/emailai/infrastructure/ai/OpenAiClient.java:68-71 | a blank or missing payload throws `IllegalStateException(MSG_AI_INVALID)`, which the service turns into "request failed" | a response body `{"output_text": " "}` with a valid key | `InvalidAiResponseException` ("Resposta da IA invalida. Tente novamente.") | medium; not executed | `Wiring.UnusablePayloadSurfacesAsRequestFailed` | `Wiring.TypedUnusablePayloadIsInvalidResponse` |
