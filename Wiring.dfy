/**
  The service assembled with the two file extractors and the OpenAI client,
  and what follows for the whole pipeline.
 */
module Wiring {
  import opened Lang
  import opened JavaStrings
  import opened Domain
  import opened Ports
  import opened OpenAi
  import opened EmailAnalysis
  import TxtExtractor
  import PdfExtractor

  /** The service with the OpenAI client wired in, as it stands. */
  function Assembled(extractors: seq<FileTextExtractor>, client: OpenAiClient, io: Io): EmailAnalysisService {
    EmailAnalysisService(extractors, Some((text: string) => Analyze(client, io, text)))
  }

  /** The service with the client whose failures are the typed exceptions. */
  function AssembledTyped(extractors: seq<FileTextExtractor>, client: OpenAiClient, io: Io): EmailAnalysisService {
    EmailAnalysisService(extractors, Some((text: string) => AnalyzeTyped(client, io, text)))
  }

  /** As written, a missing API key reaches the caller as "request failed":
      the client's IllegalStateException is not one of the four exceptions
      the service passes through. */
  lemma MissingKeySurfacesAsRequestFailed(u: UnicodeData, extractors: seq<FileTextExtractor>,
                                          client: OpenAiClient, io: Io, rawText: string)
    requires MissingKey(client) && !IsBlank(rawText)
    ensures AnalyzeText(Assembled(extractors, client, io), u, Some(rawText)).outcome == Err(RequestFailed)
    ensures RequestFailed.message != MSG_NO_API_KEY
  {
  }

  /** With typed client failures, a missing API key reaches the caller as
      exactly the service's own "not configured" failure. */
  lemma TypedMissingKeyIsNotConfigured(u: UnicodeData, extractors: seq<FileTextExtractor>,
                                       client: OpenAiClient, io: Io, rawText: string)
    requires MissingKey(client) && !IsBlank(rawText)
    ensures AnalyzeText(AssembledTyped(extractors, client, io), u, Some(rawText)).outcome == Err(NotConfigured)
  {
  }

  /** As written, a response whose payload is missing or blank reaches the
      caller as "request failed" too. */
  lemma UnusablePayloadSurfacesAsRequestFailed(u: UnicodeData, extractors: seq<FileTextExtractor>,
                                               client: OpenAiClient, io: Io, rawText: string)
    requires !MissingKey(client) && !IsBlank(rawText)
    requires var sent := io.post(BuildRequest(client.model, Strip(rawText)));
             sent.Body? && ExtractOutputText(io.readTree, sent.body).Located?
             && !NonBlank(ExtractOutputText(io.readTree, sent.body).text)
    ensures AnalyzeText(Assembled(extractors, client, io), u, Some(rawText)).outcome == Err(RequestFailed)
  {
  }

  /** With typed client failures, the same response reaches the caller as
      exactly the service's "invalid response" failure. */
  lemma TypedUnusablePayloadIsInvalidResponse(u: UnicodeData, extractors: seq<FileTextExtractor>,
                                              client: OpenAiClient, io: Io, rawText: string)
    requires !MissingKey(client) && !IsBlank(rawText)
    requires var sent := io.post(BuildRequest(client.model, Strip(rawText)));
             sent.Body? && ExtractOutputText(io.readTree, sent.body).Located?
             && !NonBlank(ExtractOutputText(io.readTree, sent.body).text)
    ensures AnalyzeText(AssembledTyped(extractors, client, io), u, Some(rawText)).outcome == Err(InvalidResponse)
  {
  }

  /** Through the OpenAI client, a successful analysis always carries a
      non-blank reason and reply: the client validates them and the service
      copies them. */
  lemma AssembledResultsCarryText(u: UnicodeData, extractors: seq<FileTextExtractor>,
                                  client: OpenAiClient, io: Io, cleaned: string)
    requires AnalyzeWithAi(Assembled(extractors, client, io), u, cleaned).outcome.Ok?
    ensures var result := AnalyzeWithAi(Assembled(extractors, client, io), u, cleaned).outcome.value;
      NonBlank(result.reason) && NonBlank(result.suggestedReply)
  {
    var svc := Assembled(extractors, client, io);
    assert svc.aiClient.value(cleaned) == Analyze(client, io, cleaned);
  }

  /** "a.txt" sent as application/pdf is supported by both extractors, so
      the registration order alone decides which one extracts it. */
  lemma ListOrderDecides(u: UnicodeData, decodeUtf8: seq<byte> -> string,
                         loadAndStrip: seq<byte> -> Option<string>, bytes: seq<byte>)
    requires u.toLowerCase("a.txt") == "a.txt"
    ensures var txt, pdf := TxtExtractor.Extractor(u, decodeUtf8), PdfExtractor.Extractor(u, loadAndStrip);
      && FirstSupporting([txt, pdf], Some("a.txt"), Some("application/pdf")) == Some(0)
      && FirstSupporting([pdf, txt], Some("a.txt"), Some("application/pdf")) == Some(0)
  {
    assert EqualsIgnoreCase(u, "application/pdf", "application/pdf");
  }

  /** A PDF the library cannot read ends the run with "extraction failed",
      and the classifier is not asked. */
  lemma UnreadablePdfIsExtractionFailed(u: UnicodeData, loadAndStrip: seq<byte> -> Option<string>,
                                        aiClient: Option<AiClient>, bytes: seq<byte>,
                                        filename: string, contentType: Option<string>)
    requires bytes != [] && loadAndStrip(bytes).None?
    requires EndsWith(u.toLowerCase(filename), ".pdf")
    ensures var svc := EmailAnalysisService([PdfExtractor.Extractor(u, loadAndStrip)], aiClient);
            AnalyzeFile(svc, u, Some(bytes), Some(filename), contentType)
              == Run(Err(ExtractionFailed), [Supports(0), Extract(0)])
  {
  }

  /** The plain-text extractor never makes a run fail with "extraction
      failed". */
  lemma TextFilesNeverFailExtraction(u: UnicodeData, decodeUtf8: seq<byte> -> string,
                                     aiClient: Option<AiClient>, bytes: Option<seq<byte>>,
                                     filename: Option<string>, contentType: Option<string>)
    ensures var svc := EmailAnalysisService([TxtExtractor.Extractor(u, decodeUtf8)], aiClient);
            AnalyzeFile(svc, u, bytes, filename, contentType).outcome != Err(ExtractionFailed)
  {
    var svc := EmailAnalysisService([TxtExtractor.Extractor(u, decodeUtf8)], aiClient);
    var run := AnalyzeFile(svc, u, bytes, filename, contentType);
    FileFailuresDiffer();
    if bytes.None? || bytes.value == [] {
      assert run.outcome == Err(FileRequired);
    } else if FirstSupporting(svc.extractors, filename, contentType).None? {
      assert run.outcome == Err(Unsupported);
    } else {
      AnalyzeFileAfterPick(svc, u, bytes.value, filename, contentType, 0);
      var extracted := svc.extractors[0].extract(bytes.value);
      assert extracted == TxtExtractor.Extract(decodeUtf8, bytes.value);
      var tail := ClassifyExtracted(svc, u, 0, extracted.value);
      assert run.outcome == tail.outcome;
      assert tail.outcome.Err? ==> tail.outcome.error == EmptyText || IsAiFailure(tail.outcome.error);
    }
  }
}
