/**
 * The deterministic steps of the legal-question agent graph: the router,
 * the refusal node, the defaulting in query generation, the fan-out into
 * web-research work items, the post-processing of one search response and
 * the finalisation of the answer. Every language-model or search call is
 * replaced by its response, passed in as a parameter.
 */
module Graph {
  import opened Wrappers
  import opened PyStr
  import opened ShortUrls

  // ---------------------------------------------------------------------
  // Schemas and records

  /** Structured output of the query-writing model: queries and a rationale. */
  datatype SearchQueryList = SearchQueryList(query: seq<string>, rationale: string)

  /** Structured output of the classifying model: the flag and a reason. */
  datatype ClassificationResult = ClassificationResult(isLegalQuestion: bool, reason: string)

  datatype Message = HumanMessage(content: string) | AIMessage(content: string)

  /** The configuration values the graph reads. */
  datatype Configuration = Configuration(
    numberOfInitialQueries: int,
    queryGeneratorModel: string,
    answerModel: string)

  /** One parallel unit of research: a query and its position in the query list. */
  datatype WebSearchUnit = WebSearchUnit(searchQuery: string, id: nat)

  /** A request to run the graph node `node` on the state `arg`. */
  datatype Send = Send(node: string, arg: WebSearchUnit)

  /** A citation as the citation helper returns it; only its segments are read here. */
  datatype Citation = Citation(segments: seq<Source>)

  /**
   * A search-enabled model response: the parts the code inspects, and the
   * rest of it (`other`), which only the citation helper reads.
   */
  datatype GroundingMetadata<Chunk> = GroundingMetadata(groundingChunks: Option<seq<Chunk>>)
  datatype Candidate<Chunk> = Candidate(groundingMetadata: Option<GroundingMetadata<Chunk>>)
  datatype SearchResponse<Chunk, Other> =
    SearchResponse(text: string, candidates: seq<Option<Candidate<Chunk>>>, other: Other)

  /** The partial state a web-research branch contributes. */
  datatype WebResearchUpdate = WebResearchUpdate(
    sourcesGathered: seq<Source>,
    searchQuery: seq<string>,
    webResearchResult: seq<string>)

  /** What is sent to the answering model besides the fixed template. */
  datatype AnswerRequest = AnswerRequest(model: string, summaries: string)

  /** The partial state the final node returns. */
  datatype FinalUpdate = FinalUpdate(messages: seq<Message>, sourcesGathered: seq<Source>)

  const GenerateQueryNode := "generate_query"
  const HandleNonLegalQuestionNode := "handle_non_legal_question"
  const WebResearchNode := "web_research"

  /** The separator between research summaries in the answer prompt. */
  const ResearchSeparator := "\n---\n\n"

  const NonLegalRefusal :=
    "Tôi xin lỗi, tôi chỉ có thể trả lời các câu hỏi liên quan đến luật, công chứng và chứng thực. Vui lòng đặt một câu hỏi khác."

  /**
   * The graph state shared by the nodes. A scalar field that the workflow
   * has not set (or that holds Python's `None`) is `None` here.
   */
  class OverallState {
    var messages: seq<Message>
    var isLegalQuestion: Option<bool>
    var initialSearchQueryCount: Option<int>
    var reasoningModel: Option<string>
    var searchQuery: seq<string>
    var sourcesGathered: seq<Source>
    var webResearchResult: seq<string>
  }

  // ---------------------------------------------------------------------
  // Router and refusal

  /**
   * The edge after classification: on to query generation exactly when the
   * flag is present and true; a missing flag counts as false.
   */
  function DecideWhatToDo(state: OverallState): (next: string)
    reads state
    ensures next == GenerateQueryNode <==> state.isLegalQuestion == Some(true)
    ensures next == HandleNonLegalQuestionNode <==> state.isLegalQuestion != Some(true)
  {
    if state.isLegalQuestion == Some(true) then GenerateQueryNode else HandleNonLegalQuestionNode
  }

  /** The terminal node for out-of-domain questions: one fixed assistant message. */
  function HandleNonLegalQuestion(state: OverallState): (messages: seq<Message>)
    ensures |messages| == 1 && messages[0].AIMessage? && messages[0].content == NonLegalRefusal
  {
    [AIMessage(NonLegalRefusal)]
  }

  // ---------------------------------------------------------------------
  // Query generation and fan-out

  /**
   * The deterministic part of query generation: the requested number of
   * queries is written back into the state when it was unset, and is what
   * the prompt is formatted with; the state update is the model's query list
   * as returned, not truncated to that number.
   */
  method GenerateQuery(state: OverallState, config: Configuration, generated: SearchQueryList)
    returns (numberQueries: int, searchQuery: seq<string>)
    modifies state`initialSearchQueryCount
    ensures old(state.initialSearchQueryCount) == None ==>
      state.initialSearchQueryCount == Some(config.numberOfInitialQueries)
    ensures old(state.initialSearchQueryCount) != None ==>
      state.initialSearchQueryCount == old(state.initialSearchQueryCount)
    ensures state.initialSearchQueryCount == Some(numberQueries)
    ensures searchQuery == generated.query
  {
    if state.initialSearchQueryCount == None {
      state.initialSearchQueryCount := Some(config.numberOfInitialQueries);
    }
    numberQueries := state.initialSearchQueryCount.value;
    searchQuery := generated.query;
  }

  /** One web-research branch per query, in order, tagged with its zero-based index. */
  function ContinueToWebResearch(queries: seq<string>): (sends: seq<Send>)
    ensures |sends| == |queries|
    ensures forall i :: 0 <= i < |sends| ==>
      sends[i].node == WebResearchNode && sends[i].arg.searchQuery == queries[i] && sends[i].arg.id == i
  {
    seq(|queries|, i requires 0 <= i < |queries| => Send(WebResearchNode, WebSearchUnit(queries[i], i)))
  }

  /** The queries carried by a list of branches. */
  function QueriesOf(sends: seq<Send>): (queries: seq<string>)
    ensures |queries| == |sends|
    decreases |sends|
  {
    if sends == [] then [] else [sends[0].arg.searchQuery] + QueriesOf(sends[1..])
  }

  /**
   * Fan-out loses no query and invents none: reading the queries back off
   * the branches gives the original list, and no two branches share an id.
   */
  lemma FanOutRoundTrip(queries: seq<string>)
    ensures QueriesOf(ContinueToWebResearch(queries)) == queries
    ensures forall i, j :: 0 <= i < j < |queries| ==>
      ContinueToWebResearch(queries)[i].arg.id != ContinueToWebResearch(queries)[j].arg.id
  {
    QueriesOfPointwise(ContinueToWebResearch(queries));
  }

  lemma {:induction false} QueriesOfPointwise(sends: seq<Send>)
    ensures forall i :: 0 <= i < |sends| ==> QueriesOf(sends)[i] == sends[i].arg.searchQuery
    decreases |sends|
  {
    if sends != [] {
      QueriesOfPointwise(sends[1..]);
    }
  }

  // ---------------------------------------------------------------------
  // Web research post-processing

  /** The response carries grounding metadata with at least one chunk. */
  predicate HasGroundingChunks<Chunk, Other>(response: SearchResponse<Chunk, Other>) {
    |response.candidates| > 0 &&
    response.candidates[0].Some? &&
    response.candidates[0].value.groundingMetadata.Some? &&
    response.candidates[0].value.groundingMetadata.value.groundingChunks.Some? &&
    |response.candidates[0].value.groundingMetadata.value.groundingChunks.value| > 0
  }

  function GroundingChunks<Chunk, Other>(response: SearchResponse<Chunk, Other>): (chunks: seq<Chunk>)
    requires HasGroundingChunks(response)
    ensures |chunks| > 0
  {
    response.candidates[0].value.groundingMetadata.value.groundingChunks.value
  }

  /** Every citation's segments, one citation after another. */
  function Segments(citations: seq<Citation>): (sources: seq<Source>)
    decreases |citations|
  {
    if citations == [] then [] else citations[0].segments + Segments(citations[1..])
  }

  lemma {:induction false} SegmentsAppend(a: seq<Citation>, b: seq<Citation>)
    ensures Segments(a + b) == Segments(a) + Segments(b)
    decreases |a|
  {
    if a == [] {
      assert a + b == b;
    } else {
      assert (a + b)[0] == a[0];
      assert (a + b)[1..] == a[1..] + b;
      SegmentsAppend(a[1..], b);
    }
  }

  /** A source is gathered exactly when some citation lists it among its segments. */
  lemma {:induction false} SegmentsMembership(citations: seq<Citation>, x: Source)
    ensures x in Segments(citations) <==> exists i :: 0 <= i < |citations| && x in citations[i].segments
    decreases |citations|
  {
    if citations != [] {
      SegmentsMembership(citations[1..], x);
      assert forall i :: 1 <= i < |citations| ==> citations[1..][i - 1] == citations[i];
      if x in Segments(citations[1..]) {
        var j :| 0 <= j < |citations[1..]| && x in citations[1..][j].segments;
        assert x in citations[j + 1].segments;
      }
    }
  }

  /**
   * The gathered sources list citation `i`'s segments right after those of
   * the citations before it and before those of the citations after it.
   */
  lemma SegmentsInCitationOrder(citations: seq<Citation>, i: nat)
    requires i < |citations|
    ensures Segments(citations) ==
      Segments(citations[..i]) + citations[i].segments + Segments(citations[i + 1..])
  {
    var before, from := citations[..i], citations[i..];
    assert citations == before + from;
    SegmentsAppend(before, from);
    assert from[0] == citations[i] && from[1..] == citations[i + 1..];
  }

  /**
   * The state update of one research branch. The URL-shortening, citation
   * and marker-insertion helpers are not part of this model and are taken
   * as parameters.
   */
  function WebResearch<Chunk, Other, Urls>(
    unit: WebSearchUnit,
    response: SearchResponse<Chunk, Other>,
    resolveUrls: (seq<Chunk>, nat) -> Urls,
    getCitations: (SearchResponse<Chunk, Other>, Urls) -> seq<Citation>,
    insertCitationMarkers: (string, seq<Citation>) -> string): (update: WebResearchUpdate)
    ensures update.searchQuery == [unit.searchQuery]
    ensures |update.webResearchResult| == 1
    ensures !HasGroundingChunks(response) ==>
      update.webResearchResult == [response.text] && update.sourcesGathered == []
    ensures HasGroundingChunks(response) ==>
      var citations := getCitations(response, resolveUrls(GroundingChunks(response), unit.id));
      update.webResearchResult == [insertCitationMarkers(response.text, citations)] &&
      update.sourcesGathered == Segments(citations) &&
      (citations == [] ==> update.sourcesGathered == []) &&
      (forall i :: 0 <= i < |citations| ==>
        update.sourcesGathered ==
        Segments(citations[..i]) + citations[i].segments + Segments(citations[i + 1..]))
  {
    if HasGroundingChunks(response) then
      var resolvedUrls := resolveUrls(GroundingChunks(response), unit.id);
      var citations := getCitations(response, resolvedUrls);
      var modifiedText := insertCitationMarkers(response.text, citations);
      var sourcesGathered := Segments(citations);
      assert forall i :: 0 <= i < |citations| ==>
        sourcesGathered == Segments(citations[..i]) + citations[i].segments + Segments(citations[i + 1..])
      by {
        forall i | 0 <= i < |citations| {
          SegmentsInCitationOrder(citations, i);
        }
      }
      WebResearchUpdate(sourcesGathered, [unit.searchQuery], [modifiedText])
    else
      WebResearchUpdate([], [unit.searchQuery], [response.text])
  }

  // ---------------------------------------------------------------------
  // Answer finalisation

  /**
   * The answering model: the state's override when it is set and non-empty,
   * the configured model otherwise.
   */
  function ChooseAnswerModel(reasoningModel: Option<string>, answerModel: string): (model: string)
    ensures reasoningModel.Some? && reasoningModel.value != "" ==> model == reasoningModel.value
    ensures reasoningModel == None || reasoningModel == Some("") ==> model == answerModel
    ensures model == "" ==> answerModel == ""
  {
    if reasoningModel.Some? && reasoningModel.value != "" then reasoningModel.value else answerModel
  }

  /**
   * The model and the research summaries used for the answer prompt; every
   * research result appears in the summaries.
   */
  function AnswerPrompt(state: OverallState, config: Configuration): (request: AnswerRequest)
    reads state
    ensures request.model == ChooseAnswerModel(state.reasoningModel, config.answerModel)
    ensures request.summaries == Join(state.webResearchResult, ResearchSeparator)
    ensures forall i :: 0 <= i < |state.webResearchResult| ==>
      Contains(request.summaries, state.webResearchResult[i])
  {
    var summaries := Join(state.webResearchResult, ResearchSeparator);
    assert forall i :: 0 <= i < |state.webResearchResult| ==>
      Contains(summaries, state.webResearchResult[i])
    by {
      forall i | 0 <= i < |state.webResearchResult| {
        JoinContainsEachPart(state.webResearchResult, ResearchSeparator, i);
      }
    }
    AnswerRequest(ChooseAnswerModel(state.reasoningModel, config.answerModel), summaries)
  }

  /**
   * Post-processing of the model's answer: restore every cited short URL and
   * keep exactly the sources restored, in their gathered order.
   */
  method FinalizeAnswer(state: OverallState, answer: string) returns (update: FinalUpdate)
    ensures update.messages == [AIMessage(Restore(answer, state.sourcesGathered).content)]
    ensures update.sourcesGathered == Restore(answer, state.sourcesGathered).kept
    ensures IsSubsequence(update.sourcesGathered, state.sourcesGathered)
    ensures |update.sourcesGathered| <= |state.sourcesGathered|
    ensures (forall j :: 0 <= j < |state.sourcesGathered| ==>
              !Contains(answer, state.sourcesGathered[j].shortUrl)) ==>
      update == FinalUpdate([AIMessage(answer)], [])
  {
    var sources := state.sourcesGathered;
    var content := answer;
    var uniqueSources := [];
    for i := 0 to |sources|
      invariant Restore(content, sources[i..]).content == Restore(answer, sources).content
      invariant uniqueSources + Restore(content, sources[i..]).kept == Restore(answer, sources).kept
    {
      var source := sources[i];
      assert sources[i..][1..] == sources[i + 1..];
      if Contains(content, source.shortUrl) {
        content := ReplaceAll(content, source.shortUrl, source.value);
        uniqueSources := uniqueSources + [source];
      }
    }
    assert sources[|sources|..] == [];
    RestoreKeepsSubsequence(answer, sources);
    if forall j :: 0 <= j < |sources| ==> !Contains(answer, sources[j].shortUrl) {
      RestoreNothingCited(answer, sources);
    }
    update := FinalUpdate([AIMessage(content)], uniqueSources);
  }
}
