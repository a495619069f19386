/**
  The analysis orchestrator (EmailAnalysisService). It validates the input,
  picks an extractor, normalises the extracted text, asks the classifier and
  maps its answer into the domain record, turning every failure into one
  typed exception.

  Each operation returns the outcome together with the calls it made on its
  ports, in order, so that which ports were consulted, and with what, can
  be stated.
 */
module EmailAnalysis {
  import opened Lang
  import opened JavaStrings
  import opened Domain
  import opened Ports

  const MSG_TEXT_REQUIRED := "Cole um texto de e-mail para analise."
  const MSG_FILE_REQUIRED := "Selecione um arquivo .txt ou .pdf para analise."
  const MSG_UNSUPPORTED_FILE := "Formato nao suportado. Use .txt ou .pdf."
  const MSG_EXTRACTION_FAILED := "Falha ao extrair texto do arquivo."
  const MSG_EMPTY_TEXT := "Nao foi possivel extrair texto do arquivo (PDF pode ser escaneado/imagem)."
  const MSG_AI_NOT_CONFIGURED := "Chave de IA nao configurada."
  const MSG_AI_FAILURE := "Falha ao consultar a IA. Tente novamente."
  const MSG_AI_INVALID := "Resposta da IA invalida. Tente novamente."
  const MSG_AI_INVALID_CATEGORY := "Categoria retornada pela IA e invalida."

  /** The service's failures, each an exception class with its message. */
  const TextRequired := IllegalArgument(MSG_TEXT_REQUIRED)
  const FileRequired := InvalidFile(MSG_FILE_REQUIRED)
  const Unsupported := InvalidFile(MSG_UNSUPPORTED_FILE)
  const ExtractionFailed := InvalidFile(MSG_EXTRACTION_FAILED)
  const EmptyText := InvalidFile(MSG_EMPTY_TEXT)
  const NotConfigured := AiNotConfigured(MSG_AI_NOT_CONFIGURED)
  const RequestFailed := AiRequestFailed(MSG_AI_FAILURE)
  const InvalidResponse := InvalidAiResponse(MSG_AI_INVALID)
  const InvalidCategory := InvalidAiResponse(MSG_AI_INVALID_CATEGORY)

  /** The tag every result carries. */
  const SOURCE_TAG := "openai"

  /** The service: the extractors in registration order and the classifier
      client when one is wired. Both are fixed at construction. */
  datatype EmailAnalysisService = EmailAnalysisService(
    extractors: seq<FileTextExtractor>,
    aiClient: Option<AiClient>)

  /** A call on a port: the capability test or the extraction of the
      extractor at an index, or the classifier with the text it was given. */
  datatype Call = Supports(index: nat) | Extract(index: nat) | Classify(text: string)

  /** An operation's outcome and the port calls it made, in order. */
  datatype Run = Run(outcome: Result<EmailAnalysisResult>, calls: seq<Call>)

  /** The four exception classes analyzeWithAi lets through unchanged. */
  predicate IsAiFailure(e: Exception) {
    e.AiNotConfigured? || e.AiQuota? || e.AiRequestFailed? || e.InvalidAiResponse?
  }

  /** Whether the run consulted the classifier. */
  predicate ClassifierCalled(calls: seq<Call>) {
    exists k :: 0 <= k < |calls| && calls[k].Classify?
  }

  // ----------------------------------------------------------- normalisation

  /** What the pattern [\p{C}&&[^\n\r\t]] leaves in place: every character
      outside category C, and newline, carriage return and tab. */
  predicate Kept(u: UnicodeData, c: char) {
    !u.isOther(c) || c == '\n' || c == '\r' || c == '\t'
  }

  /** The text with every match of that pattern removed. */
  function KeepPrintable(u: UnicodeData, s: string): (r: string)
    ensures |r| <= |s|
    ensures forall k :: 0 <= k < |r| ==> Kept(u, r[k])
  {
    if s == [] then []
    else (if Kept(u, s[0]) then [s[0]] else []) + KeepPrintable(u, s[1..])
  }

  /** Removal works piece by piece: it keeps the surviving characters in
      their original order. */
  lemma {:induction false} KeepPrintableAppend(u: UnicodeData, a: string, b: string)
    ensures KeepPrintable(u, a + b) == KeepPrintable(u, a) + KeepPrintable(u, b)
  {
    if a == [] {
      assert a + b == b;
    } else {
      assert (a + b)[0] == a[0];
      assert (a + b)[1..] == a[1..] + b;
      KeepPrintableAppend(u, a[1..], b);
    }
  }

  /** Every kept character survives as often as it occurs, and every other
      character is gone. */
  lemma {:induction false} KeepPrintableCounts(u: UnicodeData, s: string, c: char)
    ensures multiset(KeepPrintable(u, s))[c] == if Kept(u, c) then multiset(s)[c] else 0
  {
    if s != [] {
      KeepPrintableCounts(u, s[1..], c);
      assert s == [s[0]] + s[1..];
    }
  }

  /** The text is left alone exactly when it has nothing to remove. */
  lemma {:induction false} KeepPrintableFixpoint(u: UnicodeData, s: string)
    ensures KeepPrintable(u, s) == s <==> forall k :: 0 <= k < |s| ==> Kept(u, s[k])
  {
    if s != [] {
      KeepPrintableFixpoint(u, s[1..]);
      assert forall k :: 1 <= k < |s| ==> s[1..][k - 1] == s[k];
      if !Kept(u, s[0]) {
        assert |KeepPrintable(u, s)| <= |s[1..]| < |s|;
      }
    }
  }

  /** Removing twice removes nothing more. */
  lemma KeepPrintableIdempotent(u: UnicodeData, s: string)
    ensures KeepPrintable(u, KeepPrintable(u, s)) == KeepPrintable(u, s)
  {
    KeepPrintableFixpoint(u, KeepPrintable(u, s));
  }

  /** normalizeUnicode: null becomes the empty string; otherwise the NFKC form
      with the pattern's characters removed. */
  function NormalizeUnicode(u: UnicodeData, text: Option<string>): (r: string)
    ensures text.None? ==> r == ""
    ensures text.Some? ==> r == KeepPrintable(u, u.nfkc(text.value))
    ensures forall k :: 0 <= k < |r| ==> Kept(u, r[k])
  {
    if text.None? then "" else KeepPrintable(u, u.nfkc(text.value))
  }

  // ------------------------------------------------------ mapping to domain

  /** resolveCategory: a null or blank label is invalid; otherwise the label,
      trimmed and upper-cased, must be exactly a category's name. No default
      is ever chosen. */
  function ResolveCategory(u: UnicodeData, rawCategory: Option<string>): (r: Result<EmailCategory>)
    ensures rawCategory.None? || IsBlank(rawCategory.value) ==> r == Err(InvalidCategory)
    ensures r.Err? ==> r.error == InvalidCategory
    ensures r.Ok? <==> rawCategory.Some? && !IsBlank(rawCategory.value)
                       && ValueOf(u.toUpperCaseRoot(Trim(rawCategory.value))).Some?
    ensures r.Ok? ==> Name(r.value) == u.toUpperCaseRoot(Trim(rawCategory.value))
  {
    if rawCategory.None? || IsBlank(rawCategory.value) then Err(InvalidCategory)
    else match ValueOf(u.toUpperCaseRoot(Trim(rawCategory.value)))
      case None => Err(InvalidCategory)
      case Some(c) => Ok(c)
  }

  /** toDomain: a null response is invalid; otherwise the category is
      resolved and the other fields are copied as they are, tagged with the
      backend's name. */
  function ToDomain(u: UnicodeData, response: Option<AiAnalysisResponse>): (r: Result<EmailAnalysisResult>)
    ensures response.None? ==> r == Err(InvalidResponse)
    ensures r.Err? ==> r.error == InvalidResponse || r.error == InvalidCategory
    ensures response.Some? && r.Err? ==> r == Err(InvalidCategory)
    ensures response.Some? ==> (r.Ok? <==> ResolveCategory(u, response.value.category).Ok?)
    ensures r.Ok? ==>
              && response.Some?
              && r.value.category == ResolveCategory(u, response.value.category).value
              && r.value.confidence == response.value.confidence
              && r.value.reason == response.value.reason
              && r.value.suggestedReply == response.value.suggestedReply
              && r.value.model == SOURCE_TAG
  {
    if response.None? then Err(InvalidResponse)
    else match ResolveCategory(u, response.value.category)
      case Err(e) => Err(e)
      case Ok(category) =>
        Ok(EmailAnalysisResult(category, response.value.confidence, response.value.reason,
                               response.value.suggestedReply, SOURCE_TAG))
  }

  // ------------------------------------------------------------ operations

  /** What analyzeWithAi makes of the client's answer: a thrown exception of
      one of the four typed classes passes unchanged, any other becomes
      "request failed"; a returned response goes through toDomain. */
  function Translate(u: UnicodeData, answer: Result<Option<AiAnalysisResponse>>): (r: Result<EmailAnalysisResult>)
    ensures r.Err? ==> IsAiFailure(r.error)
    ensures answer.Err? && IsAiFailure(answer.error) ==> r == Err(answer.error)
    ensures answer.Err? && !IsAiFailure(answer.error) ==> r == Err(RequestFailed)
    ensures answer.Ok? ==> r == ToDomain(u, answer.value)
  {
    match answer
    case Err(thrown) => if IsAiFailure(thrown) then Err(thrown) else Err(RequestFailed)
    case Ok(response) => ToDomain(u, response)
  }

  /** analyzeWithAi: without a client, "not configured" before any call;
      otherwise the client is asked exactly once, with the text, and its
      answer is translated. */
  function AnalyzeWithAi(svc: EmailAnalysisService, u: UnicodeData, cleaned: string): (run: Run)
    ensures svc.aiClient.None? ==> run == Run(Err(NotConfigured), [])
    ensures svc.aiClient.Some? ==> run == Run(Translate(u, svc.aiClient.value(cleaned)), [Classify(cleaned)])
    ensures run.outcome.Err? ==> IsAiFailure(run.outcome.error)
  {
    if svc.aiClient.None? then Run(Err(NotConfigured), [])
    else Run(Translate(u, svc.aiClient.value(cleaned)), [Classify(cleaned)])
  }

  /** analyzeText: null or blank text is refused before the classifier is
      consulted; otherwise the classifier receives the stripped text. */
  function AnalyzeText(svc: EmailAnalysisService, u: UnicodeData, rawText: Option<string>): (run: Run)
    ensures run.outcome == Err(TextRequired) <==> rawText.None? || IsBlank(rawText.value)
    ensures rawText.None? || IsBlank(rawText.value) ==> run.calls == []
    ensures rawText.Some? && !IsBlank(rawText.value) ==>
              run == AnalyzeWithAi(svc, u, Strip(rawText.value)) && Strip(rawText.value) != []
    ensures run.outcome.Err? ==> run.outcome.error == TextRequired || IsAiFailure(run.outcome.error)
  {
    var cleaned := if rawText.None? then "" else Strip(rawText.value);
    if cleaned == [] then Run(Err(TextRequired), [])
    else AnalyzeWithAi(svc, u, cleaned)
  }

  /** The index of the first extractor, in list order, that supports the
      input, or none when no extractor does. */
  function FirstSupporting(extractors: seq<FileTextExtractor>, filename: Option<string>, contentType: Option<string>): (r: Option<nat>)
    ensures r.Some? ==> r.value < |extractors| && extractors[r.value].supports(filename, contentType)
    ensures r.Some? ==> forall j :: 0 <= j < r.value ==> !extractors[j].supports(filename, contentType)
    ensures r.None? <==> forall j :: 0 <= j < |extractors| ==> !extractors[j].supports(filename, contentType)
  {
    if extractors == [] then None
    else if extractors[0].supports(filename, contentType) then Some(0)
    else match FirstSupporting(extractors[1..], filename, contentType)
      case None => None
      case Some(i) => Some(i + 1)
  }

  /** The capability tests of the first `n` extractors, in order: what the
      lazy filter-and-findFirst stream asks before it stops. */
  function SupportsCalls(n: nat): (calls: seq<Call>)
    ensures |calls| == n
    ensures forall k :: 0 <= k < n ==> calls[k] == Supports(k)
  {
    if n == 0 then [] else SupportsCalls(n - 1) + [Supports(n - 1)]
  }

  /** The text the classifier receives for a file whose extraction yielded
      `extracted`. */
  function CleanedText(u: UnicodeData, extracted: Option<string>): (cleaned: string)
    ensures cleaned != [] ==> !IsWhitespace(cleaned[0]) && !IsWhitespace(cleaned[|cleaned| - 1])
    ensures forall k :: 0 <= k < |cleaned| ==> Kept(u, cleaned[k])
  {
    var normalized := NormalizeUnicode(u, extracted);
    StripKeeps(normalized, c => Kept(u, c));
    Strip(normalized)
  }

  /** The four file failures carry four different messages. */
  lemma FileFailuresDiffer()
    ensures FileRequired != Unsupported && FileRequired != ExtractionFailed && FileRequired != EmptyText
    ensures Unsupported != ExtractionFailed && Unsupported != EmptyText
    ensures ExtractionFailed != EmptyText
  {
  }

  /** The part of analyzeFile after a successful extraction by the extractor
      at index `i`: normalisation, the empty-text check, then the
      classifier. */
  function ClassifyExtracted(svc: EmailAnalysisService, u: UnicodeData, i: nat, extracted: Option<string>): (run: Run)
    ensures run.calls == [Extract(i)] || run.calls == [Extract(i), Classify(CleanedText(u, extracted))]
    ensures var cleaned := CleanedText(u, extracted);
      && (cleaned == [] ==> run == Run(Err(EmptyText), [Extract(i)]))
      && (cleaned != [] ==> run.outcome == AnalyzeWithAi(svc, u, cleaned).outcome
                            && run.calls == [Extract(i)] + AnalyzeWithAi(svc, u, cleaned).calls)
    ensures run.outcome.Err? ==> run.outcome.error == EmptyText || IsAiFailure(run.outcome.error)
  {
    var cleaned := CleanedText(u, extracted);
    assert [Extract(i)] + [] == [Extract(i)];
    if cleaned == [] then Run(Err(EmptyText), [Extract(i)])
    else
      var classified := AnalyzeWithAi(svc, u, cleaned);
      Run(classified.outcome, [Extract(i)] + classified.calls)
  }

  /** The part of analyzeFile after the extractor at index `i` is chosen:
      its extraction, then normalisation, then the classifier. */
  function ExtractAndClassify(svc: EmailAnalysisService, u: UnicodeData, i: nat, bytes: seq<byte>): (run: Run)
    requires i < |svc.extractors|
    ensures 1 <= |run.calls| <= 2 && run.calls[0] == Extract(i)
    ensures |run.calls| == 2 ==> run.calls[1].Classify?
    ensures svc.extractors[i].extract(bytes).Err? ==> run == Run(Err(ExtractionFailed), [Extract(i)])
    ensures svc.extractors[i].extract(bytes).Ok? ==>
              run == ClassifyExtracted(svc, u, i, svc.extractors[i].extract(bytes).value)
    ensures run.outcome.Err? ==>
              run.outcome.error == ExtractionFailed || run.outcome.error == EmptyText
              || IsAiFailure(run.outcome.error)
    ensures run.outcome != Err(FileRequired) && run.outcome != Err(Unsupported)
  {
    FileFailuresDiffer();
    match svc.extractors[i].extract(bytes)
    case Err(_) => Run(Err(ExtractionFailed), [Extract(i)])
    case Ok(extracted) => ClassifyExtracted(svc, u, i, extracted)
  }

  /** analyzeFile: refuses missing bytes before consulting any extractor,
      picks the first supporting extractor, turns any exception from its
      extraction into "extraction failed", and refuses text that is empty
      once normalised and stripped; only then is the classifier asked. */
  function AnalyzeFile(svc: EmailAnalysisService, u: UnicodeData, bytes: Option<seq<byte>>,
                       filename: Option<string>, contentType: Option<string>): (run: Run)
    ensures bytes.None? || bytes.value == [] ==> run == Run(Err(FileRequired), [])
    ensures run.outcome.Err? ==>
              || run.outcome.error == FileRequired || run.outcome.error == Unsupported
              || run.outcome.error == ExtractionFailed || run.outcome.error == EmptyText
              || IsAiFailure(run.outcome.error)
  {
    if bytes.None? || bytes.value == [] then Run(Err(FileRequired), [])
    else match FirstSupporting(svc.extractors, filename, contentType)
      case None => Run(Err(Unsupported), SupportsCalls(|svc.extractors|))
      case Some(i) =>
        var extracted := ExtractAndClassify(svc, u, i, bytes.value);
        Run(extracted.outcome, SupportsCalls(i + 1) + extracted.calls)
  }

  // ---------------------------------------------------------------- lemmas

  /** "file required" is the outcome exactly when the bytes are missing or
      empty; no extractor is consulted then. */
  lemma FileRequiredExactly(svc: EmailAnalysisService, u: UnicodeData, bytes: Option<seq<byte>>,
                            filename: Option<string>, contentType: Option<string>)
    ensures AnalyzeFile(svc, u, bytes, filename, contentType).outcome == Err(FileRequired)
            <==> bytes.None? || bytes.value == []
  {
    FileFailuresDiffer();
    if bytes.Some? && bytes.value != [] {
      var r := FirstSupporting(svc.extractors, filename, contentType);
      if r.Some? {
        AnalyzeFileAfterPick(svc, u, bytes.value, filename, contentType, r.value);
      }
    }
  }

  /** "unsupported" is the outcome exactly when there are bytes and no
      extractor supports the input; every extractor's test has then been
      asked, in order, and nothing else. */
  lemma UnsupportedExactly(svc: EmailAnalysisService, u: UnicodeData, bytes: Option<seq<byte>>,
                           filename: Option<string>, contentType: Option<string>)
    ensures var run := AnalyzeFile(svc, u, bytes, filename, contentType);
      run.outcome == Err(Unsupported) <==>
        && bytes.Some? && bytes.value != []
        && forall j :: 0 <= j < |svc.extractors| ==> !svc.extractors[j].supports(filename, contentType)
    ensures var run := AnalyzeFile(svc, u, bytes, filename, contentType);
      run.outcome == Err(Unsupported) ==> run.calls == SupportsCalls(|svc.extractors|)
  {
    FileFailuresDiffer();
    if bytes.Some? && bytes.value != [] {
      var r := FirstSupporting(svc.extractors, filename, contentType);
      if r.Some? {
        AnalyzeFileAfterPick(svc, u, bytes.value, filename, contentType, r.value);
      }
    }
  }

  /** The extractor that supports the input while no earlier one does is
      the one FirstSupporting picks. */
  lemma FirstSupportingPicks(extractors: seq<FileTextExtractor>, filename: Option<string>,
                             contentType: Option<string>, i: nat)
    requires i < |extractors| && extractors[i].supports(filename, contentType)
    requires forall j :: 0 <= j < i ==> !extractors[j].supports(filename, contentType)
    ensures FirstSupporting(extractors, filename, contentType) == Some(i)
  {
    var r := FirstSupporting(extractors, filename, contentType);
    assert r.Some?;
    assert !(r.value < i);
    assert !(r.value > i);
  }

  /** Once an extractor is picked, the run is its capability tests so far
      followed by ExtractAndClassify. */
  lemma AnalyzeFileAfterPick(svc: EmailAnalysisService, u: UnicodeData, bytes: seq<byte>,
                             filename: Option<string>, contentType: Option<string>, i: nat)
    requires bytes != [] && FirstSupporting(svc.extractors, filename, contentType) == Some(i)
    ensures i < |svc.extractors|
    ensures var tail := ExtractAndClassify(svc, u, i, bytes);
      AnalyzeFile(svc, u, Some(bytes), filename, contentType) == Run(tail.outcome, SupportsCalls(i + 1) + tail.calls)
  {
  }

  /** The chosen extractor is the first supporting one: the tests of all
      earlier extractors and its own are asked, in order, then its
      extraction; nothing else is consulted unless the extraction succeeds
      with usable text. */
  lemma FirstSupportingIsExtracted(svc: EmailAnalysisService, u: UnicodeData, bytes: seq<byte>,
                                   filename: Option<string>, contentType: Option<string>, i: nat)
    requires bytes != []
    requires i < |svc.extractors| && svc.extractors[i].supports(filename, contentType)
    requires forall j :: 0 <= j < i ==> !svc.extractors[j].supports(filename, contentType)
    ensures var run := AnalyzeFile(svc, u, Some(bytes), filename, contentType);
      && |run.calls| >= i + 2
      && run.calls[..i + 2] == SupportsCalls(i + 1) + [Extract(i)]
      && forall k :: i + 2 <= k < |run.calls| ==> run.calls[k].Classify?
  {
    FirstSupportingPicks(svc.extractors, filename, contentType, i);
    AnalyzeFileAfterPick(svc, u, bytes, filename, contentType, i);
    var tail := ExtractAndClassify(svc, u, i, bytes).calls;
    var calls := SupportsCalls(i + 1) + tail;
    assert AnalyzeFile(svc, u, Some(bytes), filename, contentType).calls == calls;
    assert calls[..i + 2] == SupportsCalls(i + 1) + [tail[0]];
    forall k | i + 2 <= k < |calls|
      ensures calls[k].Classify?
    {
      assert k == i + 2 && calls[k] == tail[1];
    }
  }

  /** An exception from the extraction ends the run with "extraction
      failed"; the classifier is never asked. */
  lemma ExtractionFailureStops(svc: EmailAnalysisService, u: UnicodeData, bytes: seq<byte>,
                               filename: Option<string>, contentType: Option<string>)
    requires bytes != []
    requires FirstSupporting(svc.extractors, filename, contentType).Some?
    requires svc.extractors[FirstSupporting(svc.extractors, filename, contentType).value].extract(bytes).Err?
    ensures AnalyzeFile(svc, u, Some(bytes), filename, contentType).outcome == Err(ExtractionFailed)
    ensures !ClassifierCalled(AnalyzeFile(svc, u, Some(bytes), filename, contentType).calls)
  {
    var i := FirstSupporting(svc.extractors, filename, contentType).value;
    AnalyzeFileAfterPick(svc, u, bytes, filename, contentType, i);
    var calls := AnalyzeFile(svc, u, Some(bytes), filename, contentType).calls;
    assert calls == SupportsCalls(i + 1) + [Extract(i)];
    assert forall k :: 0 <= k < |calls| ==> !calls[k].Classify?;
  }

  /** Extracted text that normalises and strips to nothing ends the run with
      "empty text"; the classifier is never asked. */
  lemma EmptyTextStops(svc: EmailAnalysisService, u: UnicodeData, bytes: seq<byte>,
                       filename: Option<string>, contentType: Option<string>)
    requires bytes != []
    requires FirstSupporting(svc.extractors, filename, contentType).Some?
    requires var e := svc.extractors[FirstSupporting(svc.extractors, filename, contentType).value];
             e.extract(bytes).Ok? && IsBlank(NormalizeUnicode(u, e.extract(bytes).value))
    ensures AnalyzeFile(svc, u, Some(bytes), filename, contentType).outcome == Err(EmptyText)
    ensures !ClassifierCalled(AnalyzeFile(svc, u, Some(bytes), filename, contentType).calls)
  {
    var i := FirstSupporting(svc.extractors, filename, contentType).value;
    AnalyzeFileAfterPick(svc, u, bytes, filename, contentType, i);
    var calls := AnalyzeFile(svc, u, Some(bytes), filename, contentType).calls;
    assert calls == SupportsCalls(i + 1) + [Extract(i)];
    assert forall k :: 0 <= k < |calls| ==> !calls[k].Classify?;
  }

  /** When extraction yields usable text and a client is wired, the client is
      asked exactly once, with the normalised and stripped text, and the
      outcome is what analyzeWithAi makes of its answer. */
  lemma ExtractedTextReachesClassifier(svc: EmailAnalysisService, u: UnicodeData, bytes: seq<byte>,
                                       filename: Option<string>, contentType: Option<string>)
    requires bytes != [] && svc.aiClient.Some?
    requires FirstSupporting(svc.extractors, filename, contentType).Some?
    requires var e := svc.extractors[FirstSupporting(svc.extractors, filename, contentType).value];
             e.extract(bytes).Ok? && CleanedText(u, e.extract(bytes).value) != []
    ensures var i := FirstSupporting(svc.extractors, filename, contentType).value;
            var cleaned := CleanedText(u, svc.extractors[i].extract(bytes).value);
            var run := AnalyzeFile(svc, u, Some(bytes), filename, contentType);
      && run.calls == SupportsCalls(i + 1) + [Extract(i), Classify(cleaned)]
      && run.outcome == AnalyzeWithAi(svc, u, cleaned).outcome
  {
    var i := FirstSupporting(svc.extractors, filename, contentType).value;
    var cleaned := CleanedText(u, svc.extractors[i].extract(bytes).value);
    AnalyzeFileAfterPick(svc, u, bytes, filename, contentType, i);
    var tail := ExtractAndClassify(svc, u, i, bytes);
    assert AnalyzeWithAi(svc, u, cleaned).calls == [Classify(cleaned)];
    assert tail.calls == [Extract(i)] + [Classify(cleaned)];
  }

  /** No category is ever made up: a successful run's category is the
      classifier's label, trimmed and upper-cased. */
  lemma NoDefaultCategory(svc: EmailAnalysisService, u: UnicodeData, cleaned: string)
    requires svc.aiClient.Some?
    requires AnalyzeWithAi(svc, u, cleaned).outcome.Ok?
    ensures var response := svc.aiClient.value(cleaned).value;
      && response.Some? && response.value.category.Some?
      && Name(AnalyzeWithAi(svc, u, cleaned).outcome.value.category)
         == u.toUpperCaseRoot(Trim(response.value.category.value))
  {
  }

  /** Without a wired client both operations end in "not configured" (or an
      earlier input failure) and never produce a result. */
  lemma NoClientNoResult(svc: EmailAnalysisService, u: UnicodeData, rawText: Option<string>,
                         bytes: Option<seq<byte>>, filename: Option<string>, contentType: Option<string>)
    requires svc.aiClient.None?
    ensures AnalyzeText(svc, u, rawText).outcome.Err?
    ensures AnalyzeFile(svc, u, bytes, filename, contentType).outcome.Err?
    ensures rawText.Some? && !IsBlank(rawText.value) ==>
              AnalyzeText(svc, u, rawText) == Run(Err(NotConfigured), [])
  {
  }
}
