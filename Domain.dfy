/**
  The values that flow out of the pipeline (the domain record) and out of
  the classifier port (the raw response), and the category enumeration.
 */
module Domain {
  import opened Lang

  /** The email categories. The enum's source is not part of this model; its
      constants are taken to be the two labels the classifier request
      schema allows. */
  datatype EmailCategory = PRODUTIVO | IMPRODUTIVO

  /** Enum.name(). */
  function Name(c: EmailCategory): string {
    match c
    case PRODUTIVO => "PRODUTIVO"
    case IMPRODUTIVO => "IMPRODUTIVO"
  }

  /** EmailCategory.valueOf: the constant with exactly this name, or none
      (where Java throws IllegalArgumentException). */
  function ValueOf(name: string): (r: Option<EmailCategory>)
    ensures r.Some? ==> Name(r.value) == name
    ensures forall c :: Name(c) == name ==> r == Some(c)
  {
    if name == "PRODUTIVO" then Some(PRODUTIVO)
    else if name == "IMPRODUTIVO" then Some(IMPRODUTIVO)
    else None
  }

  /** A Java `double`, kept as its IEEE-754 bit pattern: the pipeline only
      copies it. */
  datatype Double = Double(bits: bv64)

  /** The classifier's raw answer (AiAnalysisResponse); its string fields may
      be null. */
  datatype AiAnalysisResponse = AiAnalysisResponse(
    category: Option<string>,
    confidence: Double,
    reason: Option<string>,
    suggestedReply: Option<string>)

  /** The analysis handed back to the caller (EmailAnalysisResult); `model`
      names the backend that produced it. */
  datatype EmailAnalysisResult = EmailAnalysisResult(
    category: EmailCategory,
    confidence: Double,
    reason: Option<string>,
    suggestedReply: Option<string>,
    model: string)
}
