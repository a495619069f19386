/**
  The outbound ports of the analysis service: file text extractors and the
  classifier client, as the values the service is built from.
 */
module Ports {
  import opened Lang
  import opened Domain

  /** FileTextExtractor: a capability test over (filename, contentType), both
      possibly null, and an extraction that returns text (possibly null) or
      throws a runtime exception. */
  datatype FileTextExtractor = FileTextExtractor(
    supports: (Option<string>, Option<string>) -> bool,
    extract: seq<byte> -> Result<Option<string>>)

  /** AiClient.analyze: given the cleaned text, returns a response (possibly
      null) or throws a runtime exception. */
  type AiClient = string -> Result<Option<AiAnalysisResponse>>
}
