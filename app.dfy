/**
 * The request pipeline behind the "Get AI Recommendations" button: detect
 * the request's language, translate a French request to English, load the
 * catalog and turn it into documents, ask the retrieval QA chain, translate
 * the answer back to French when the request was French, and hand the
 * result to the proposal document and its download button.
 *
 * Language detection, the two translators, the catalog fetch and the QA
 * chain (with the vector index it builds over the documents) are external
 * services, given as parameters; each may raise, which ends the run.
 */
module App {
  import opened Results
  import AirtableLoader

  /** The language code for which the pipeline translates. */
  const French := "fr"

  const FrenchDownloadLabel := "\U{1F4C4} Télécharger la proposition (PDF)"
  const EnglishDownloadLabel := "\U{1F4C4} Download Proposal (PDF)"

  /** The fixed client name and price written into every proposal. */
  const ProposalClient := "Client (EBA/ESMA)"
  const ProposalPrice := 70

  /** A document handed to the vector index: the row's `text` as content, its other cells as metadata. */
  datatype Document = Document(pageContent: string, metadata: map<string, string>)

  /** The external services one run uses. `None` stands for a call that raised. */
  datatype Services = Services(
    detect: string -> Option<string>,
    frToEn: string -> Option<string>,
    enToFr: string -> Option<string>,
    fetchRecords: () -> Option<seq<AirtableLoader.Record>>,
    qa: (seq<Document>, string) -> Option<string>)

  /** The external calls of a run, in the order they are made. */
  datatype Call = Detect | TranslateFrToEn | FetchCatalog | RunChain | TranslateEnToFr

  /** Why a run stopped: a service raised, or loading the catalog raised (no columns, or no Name or Address column). */
  datatype Failure = Raised(at: Call) | CatalogError(error: AirtableLoader.LoadError)

  /** The arguments of `generate_proposal_pdf`. */
  datatype Proposal = Proposal(clientName: string, clientRequest: string, recommendation: string, price: int)

  /** What a completed run shows: the displayed recommendation, the proposal and the download label. */
  datatype Response = Response(language: string, query: string, answer: string,
                               proposal: Proposal, downloadLabel: string)

  /** One run: the calls it made and how it ended. */
  datatype Run = Run(calls: seq<Call>, outcome: Result<Response, Failure>)

  predicate IsFrench(language: string)
  {
    language == French
  }

  /** The query sent to retrieval: the English translation of a French request, any other request as it is. */
  function TranslatedInput(input: string, language: string, frToEn: string -> Option<string>): Option<string>
  {
    if IsFrench(language) then frToEn(input) else Some(input)
  }

  /** The displayed result: the chain's answer, translated to French when the request was French. */
  function DisplayedResult(answer: string, language: string, enToFr: string -> Option<string>): Option<string>
  {
    if IsFrench(language) then enToFr(answer) else Some(answer)
  }

  /** The download button's label. */
  function DownloadLabel(language: string): (caption: string)
    ensures caption == FrenchDownloadLabel <==> IsFrench(language)
    ensures caption == EnglishDownloadLabel <==> !IsFrench(language)
  {
    if IsFrench(language) then FrenchDownloadLabel else EnglishDownloadLabel
  }

  /** `DataFrameLoader(df, page_content_column="text")`: one document per row, in row order. */
  function Documents(rows: seq<AirtableLoader.Row>): (docs: seq<Document>)
    requires forall i :: 0 <= i < |rows| ==> AirtableLoader.TextColumn in rows[i]
    ensures |docs| == |rows|
    ensures forall i :: 0 <= i < |rows| ==>
      docs[i].pageContent == rows[i][AirtableLoader.TextColumn]
      && docs[i].metadata == rows[i] - {AirtableLoader.TextColumn}
  {
    seq(|rows|, i requires 0 <= i < |rows| => Document(rows[i][AirtableLoader.TextColumn], rows[i] - {AirtableLoader.TextColumn}))
  }

  /** The calls made up to and including the chain, for a request detected as `language`. */
  function CallsThroughChain(language: string): seq<Call>
  {
    if IsFrench(language) then [Detect, TranslateFrToEn, FetchCatalog, RunChain] else [Detect, FetchCatalog, RunChain]
  }

  /** One press of the button on a non-empty request: the steps in source order, each stopping the run if it fails. */
  function Pipeline(input: string, s: Services): (run: Run)
    ensures |run.calls| > 0 && run.calls[0] == Detect
  {
    match s.detect(input)
    case None => Run([Detect], Failure(Raised(Detect)))
    case Some(language) =>
      var translateCalls := if IsFrench(language) then [Detect, TranslateFrToEn] else [Detect];
      match TranslatedInput(input, language, s.frToEn)
      case None => Run(translateCalls, Failure(Raised(TranslateFrToEn)))
      case Some(query) =>
        var fetchCalls := translateCalls + [FetchCatalog];
        match s.fetchRecords()
        case None => Run(fetchCalls, Failure(Raised(FetchCatalog)))
        case Some(records) =>
          match AirtableLoader.FetchAirtableData(records)
          case Failure(e) => Run(fetchCalls, Failure(CatalogError(e)))
          case Success(rows) =>
            var chainCalls := fetchCalls + [RunChain];
            match s.qa(Documents(rows), query)
            case None => Run(chainCalls, Failure(Raised(RunChain)))
            case Some(answer) =>
              var allCalls := if IsFrench(language) then chainCalls + [TranslateEnToFr] else chainCalls;
              match DisplayedResult(answer, language, s.enToFr)
              case None => Run(allCalls, Failure(Raised(TranslateEnToFr)))
              case Some(result) =>
                Run(allCalls, Success(Response(language, query, result,
                                               Proposal(ProposalClient, input, result, ProposalPrice),
                                               DownloadLabel(language))))
  }

  /** The page after a click: the pipeline runs only when the button was pressed and the request is non-empty. */
  function Submit(pressed: bool, input: string, s: Services): (run: Option<Run>)
    ensures run.Some? <==> pressed && |input| > 0
    ensures run.Some? ==> run.value == Pipeline(input, s)
  {
    if pressed && input != "" then Some(Pipeline(input, s)) else None
  }

  // ---------------------------------------------------------------------
  // Properties

  /** A request not detected as French is never translated: the query is the input, the result the chain's answer. */
  lemma NonFrenchPassesThrough(input: string, s: Services)
    requires s.detect(input).Some? && !IsFrench(s.detect(input).value)
    ensures TranslateFrToEn !in Pipeline(input, s).calls
    ensures TranslateEnToFr !in Pipeline(input, s).calls
    ensures var run := Pipeline(input, s);
      run.outcome.Success? ==>
        && run.outcome.value.query == input
        && s.fetchRecords().Some?
        && AirtableLoader.FetchAirtableData(s.fetchRecords().value).Success?
        && Some(run.outcome.value.answer)
           == s.qa(Documents(AirtableLoader.FetchAirtableData(s.fetchRecords().value).value), input)
  {
  }

  /** For a French request the query is the fr-to-en translation and the result the en-to-fr translation of the chain's answer to that query. */
  lemma FrenchTranslatesBothWays(input: string, s: Services)
    requires s.detect(input) == Some(French)
    ensures var run := Pipeline(input, s);
      run.outcome.Success? ==>
        && Some(run.outcome.value.query) == s.frToEn(input)
        && s.fetchRecords().Some?
        && AirtableLoader.FetchAirtableData(s.fetchRecords().value).Success?
        && var answer := s.qa(Documents(AirtableLoader.FetchAirtableData(s.fetchRecords().value).value),
                              run.outcome.value.query);
           answer.Some? && Some(run.outcome.value.answer) == s.enToFr(answer.value)
  {
  }

  /** The chain sees one document per catalog record, in catalog order, whose content is that record's description. */
  lemma DocumentsOfCatalog(records: seq<AirtableLoader.Record>, i: int)
    requires AirtableLoader.FetchAirtableData(records).Success?
    requires 0 <= i < |records|
    ensures var docs := Documents(AirtableLoader.FetchAirtableData(records).value);
      |docs| == |records|
      && docs[i].pageContent == AirtableLoader.Template(AirtableLoader.ReferenceSlots(records, i))
      && AirtableLoader.TextColumn !in docs[i].metadata
  {
    AirtableLoader.TextOfRecord(records, i);
  }

  /** A completed run makes every call once, in source order, translating only for a French request. */
  lemma CompletedRunCalls(input: string, s: Services)
    requires Pipeline(input, s).outcome.Success?
    ensures var run := Pipeline(input, s);
      run.calls == if IsFrench(run.outcome.value.language)
                   then CallsThroughChain(French) + [TranslateEnToFr]
                   else CallsThroughChain(run.outcome.value.language)
  {
  }

  /** A failed run stops at the call that failed; a catalog that cannot be loaded stops it before the chain runs. */
  lemma FailedRunStops(input: string, s: Services)
    requires Pipeline(input, s).outcome.Failure?
    ensures var run := Pipeline(input, s);
      match run.outcome.error
      case Raised(at) => run.calls[|run.calls| - 1] == at
      case CatalogError(_) => run.calls[|run.calls| - 1] == FetchCatalog && RunChain !in run.calls
  {
  }

  /** The proposal always carries the original, untranslated request, the fixed client and price, and the displayed result. */
  lemma ProposalOfRun(input: string, s: Services)
    requires Pipeline(input, s).outcome.Success?
    ensures var r := Pipeline(input, s).outcome.value;
      r.proposal == Proposal(ProposalClient, input, r.answer, ProposalPrice)
      && r.downloadLabel == DownloadLabel(r.language)
      && Some(r.language) == s.detect(input)
  {
  }
}
