/**
  The plain-text extractor (TxtTextExtractor): accepts a `.txt` filename or
  a `text/plain` content type, and decodes the bytes as UTF-8.
 */
module TxtExtractor {
  import opened Lang
  import opened JavaStrings
  import opened Ports

  /** supports(filename, contentType): a filename whose lower-cased form ends
      in ".txt" is accepted whatever the content type; otherwise the content
      type must be "text/plain", compared whole and ignoring case. */
  predicate Supports(u: UnicodeData, filename: Option<string>, contentType: Option<string>) {
    if filename.Some? && EndsWith(u.toLowerCase(filename.value), ".txt") then true
    else contentType.Some? && EqualsIgnoreCase(u, contentType.value, "text/plain")
  }

  /** extract(bytes): the UTF-8 decoding of the bytes; there is no failure
      path and the result is never null. */
  function Extract(decodeUtf8: seq<byte> -> string, bytes: seq<byte>): (r: Result<Option<string>>)
    ensures r.Ok? && r.value.Some?
    ensures r.value.value == decodeUtf8(bytes)
  {
    Ok(Some(decodeUtf8(bytes)))
  }

  /** The extractor as the service sees it. */
  function Extractor(u: UnicodeData, decodeUtf8: seq<byte> -> string): FileTextExtractor {
    FileTextExtractor((f, ct) => Supports(u, f, ct), b => Extract(decodeUtf8, b))
  }

  /** With neither a filename nor a content type, nothing is supported. */
  lemma NothingKnownIsUnsupported(u: UnicodeData)
    ensures !Supports(u, None, None)
  {
  }

  /** The content type is compared as a whole string: a parameter after the
      media type makes it unsupported. */
  lemma ParameterizedTypeUnsupported(u: UnicodeData, filename: Option<string>)
    requires filename.None? || !EndsWith(u.toLowerCase(filename.value), ".txt")
    ensures !Supports(u, filename, Some("text/plain; charset=utf-8"))
  {
  }

  /** A matching filename decides alone, whatever the content type says. */
  lemma SuffixDecides(u: UnicodeData, filename: string, contentType: Option<string>)
    requires EndsWith(u.toLowerCase(filename), ".txt")
    ensures Supports(u, Some(filename), contentType)
  {
  }

  /** Without a matching filename, the content type decides: supported
      exactly when it equals "text/plain" ignoring case. */
  lemma ContentTypeDecides(u: UnicodeData, filename: Option<string>, contentType: Option<string>)
    requires filename.None? || !EndsWith(u.toLowerCase(filename.value), ".txt")
    ensures Supports(u, filename, contentType) <==>
              contentType.Some? && EqualsIgnoreCase(u, contentType.value, "text/plain")
  {
  }

  /** Case is ignored in the content type: under the usual ASCII case
      mapping, "TEXT/Plain" is accepted. */
  lemma UpperCaseTypeSupported(u: UnicodeData)
    requires AsciiCaseMapping(u)
    ensures Supports(u, None, Some("TEXT/Plain"))
  {
    var s, t := "TEXT/Plain", "text/plain";
    assert forall k :: 0 <= k < |s| ==> CharsEqualIgnoreCase(u, s[k], t[k]) by {
      forall k | 0 <= k < |s|
        ensures CharsEqualIgnoreCase(u, s[k], t[k])
      {
        if 'a' <= t[k] <= 'z' {
          assert u.toUpperChar(t[k]) == UpperAscii(t[k]);
        }
      }
    }
  }
}
