/**
  The PDF extractor (PdfTextExtractor): accepts a `.pdf` filename or an
  `application/pdf` content type, and strips the document's text. Loading
  and text stripping (PDFBox) come in as one parameter that yields the text
  or nothing where the library throws an IOException.
 */
module PdfExtractor {
  import opened Lang
  import opened JavaStrings
  import opened Ports

  /** The message of the IllegalArgumentException thrown when the bytes
      cannot be read as a PDF. */
  const MSG_PDF_UNREADABLE := "N\U{E3}o foi poss\U{ED}vel extrair texto do PDF."

  /** supports(filename, contentType): a filename whose lower-cased form ends
      in ".pdf" is accepted whatever the content type; otherwise the content
      type must be "application/pdf", compared whole and ignoring case. */
  predicate Supports(u: UnicodeData, filename: Option<string>, contentType: Option<string>) {
    if filename.Some? && EndsWith(u.toLowerCase(filename.value), ".pdf") then true
    else contentType.Some? && EqualsIgnoreCase(u, contentType.value, "application/pdf")
  }

  /** extract(bytes): the stripped text of the document, or, when loading or
      stripping fails with an IOException, an IllegalArgumentException. */
  function Extract(loadAndStrip: seq<byte> -> Option<string>, bytes: seq<byte>): (r: Result<Option<string>>)
    ensures r.Err? <==> loadAndStrip(bytes).None?
    ensures r.Err? ==> r.error == IllegalArgument(MSG_PDF_UNREADABLE)
    ensures r.Ok? ==> r.value == loadAndStrip(bytes) && r.value.Some?
  {
    match loadAndStrip(bytes)
    case None => Err(IllegalArgument(MSG_PDF_UNREADABLE))
    case Some(text) => Ok(Some(text))
  }

  /** The extractor as the service sees it. */
  function Extractor(u: UnicodeData, loadAndStrip: seq<byte> -> Option<string>): FileTextExtractor {
    FileTextExtractor((f, ct) => Supports(u, f, ct), b => Extract(loadAndStrip, b))
  }

  /** With neither a filename nor a content type, nothing is supported. */
  lemma NothingKnownIsUnsupported(u: UnicodeData)
    ensures !Supports(u, None, None)
  {
  }

  /** A matching filename decides alone, whatever the content type says. */
  lemma SuffixDecides(u: UnicodeData, filename: string, contentType: Option<string>)
    requires EndsWith(u.toLowerCase(filename), ".pdf")
    ensures Supports(u, Some(filename), contentType)
  {
  }

  /** Without a matching filename, the content type decides: supported
      exactly when it equals "application/pdf" ignoring case. */
  lemma ContentTypeDecides(u: UnicodeData, filename: Option<string>, contentType: Option<string>)
    requires filename.None? || !EndsWith(u.toLowerCase(filename.value), ".pdf")
    ensures Supports(u, filename, contentType) <==>
              contentType.Some? && EqualsIgnoreCase(u, contentType.value, "application/pdf")
  {
  }
}
