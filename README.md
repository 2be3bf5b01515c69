# Legal-question research agent: the deterministic core

This project models, in Dafny, the deterministic code of the agent graph in
`backend/src/agent/graph.py`. The agent answers questions about Vietnamese
land, vehicle-registration and notarization law. A classifier flags whether a
question is in the domain. A router sends out-of-domain questions to a fixed
refusal. For in-domain questions, a query generator produces search queries, a
fan-out starts one web-research branch per query, each branch post-processes
its search-grounded response, and a final node synthesises the answer and
turns the short citation tokens back into full URLs.

Every language-model or search call is replaced by its response, which the
model takes as a parameter: the classifier's flag, the generated query list,
the search response, and the answer text. The helpers `resolve_urls`,
`get_citations` and `insert_citation_markers` from `utils.py` are passed in
as uninterpreted function parameters; `utils.py` is not part of this model.

Files:

- `pystr.dfy` (module `PyStr`): Python's `in`, `str.replace`, `str.split`
  and `str.join` on strings, with their edge cases (the empty string occurs in
  every string; replacing the empty string inserts the replacement at every
  position).
- `shorturls.dfy` (module `ShortUrls`): the short-URL restore loop of
  `finalize_answer` as a specification function `Restore`, with its
  properties.
- `graph.dfy` (module `Graph`): the graph state (a class, because
  `generate_query` writes into it), the router, the refusal node, the query
  count defaulting, the fan-out, the web-research post-processing, the
  answer-model choice, the summaries join and the finalisation method with
  its loop.
- `wrappers.dfy` (module `Wrappers`): `Option`, for Python's `None` and for
  keys missing from the state.

Facts about the code that the model makes explicit:

- A source whose token is absent from the raw answer can still be kept,
  because each source is tested against the answer as already rewritten by
  the earlier sources (`ShortUrls.TestedAgainstRewrittenContent`).
- A kept token can remain in the restored answer. Replace-all can form a new
  occurrence across the edges of a replacement, or bring one in through the
  full URL, and the code does not check (`ShortUrls.TokenMayRemainAfterRestore`).
- The loop does not remove duplicates as such. A repeated `short_url` is
  dropped when restoring the first copy removed every occurrence of it
  (`ShortUrls.RepeatedTokenDropped`); when an occurrence survives, the next
  copy is kept too (`ShortUrls.RepeatedTokenMayBeKeptTwice`).
- The generated query list is not cut to the requested count:
  `Graph.GenerateQuery` returns the list as generated.
- The gathered sources are the citations' segment items themselves, and only
  their `short_url` and `value` are read.

## Model

| member | source | states |
|---|---|---|
| `PyStr.Contains` | gemini-fullstack-langgraph-quickstart-02/backend/src/agent/graph.py:223 | The substring test is true exactly when the token occurs at some position of the text. |
| `PyStr.ReplaceAbsent` | gemini-fullstack-langgraph-quickstart-02/backend/src/agent/graph.py:224-226 | Replacing a token that does not occur leaves the text unchanged. |
| `PyStr.ReplaceIsJoinOfSplit` | gemini-fullstack-langgraph-quickstart-02/backend/src/agent/graph.py:224-226 | Replace-all of a non-empty token equals joining the pieces of a split on that token with the replacement. |
| `PyStr.SplitJoinRoundTrip` | gemini-fullstack-langgraph-quickstart-02/backend/src/agent/graph.py:224-226 | Splitting on a non-empty token and joining with it gives back the original text. |
| `PyStr.SplitMoreThanOneIffContains` | gemini-fullstack-langgraph-quickstart-02/backend/src/agent/graph.py:223 | A non-empty token occurs in the text exactly when splitting on it yields more than one piece. |
| `PyStr.JoinContainsEachPart` | gemini-fullstack-langgraph-quickstart-02/backend/src/agent/graph.py:208 | Every research result is a substring of the joined summaries. |
| `ShortUrls.RestoreSnoc` | gemini-fullstack-langgraph-quickstart-02/backend/src/agent/graph.py:221-227 | Each source is kept exactly when its token occurs in the content as rewritten by the earlier sources. A kept source turns that content into the content with every occurrence replaced by its URL. A dropped source leaves content and kept list unchanged. |
| `ShortUrls.RestoreKeepsSubsequence` | gemini-fullstack-langgraph-quickstart-02/backend/src/agent/graph.py:221-227 | The kept sources are an order-preserving subsequence of the gathered ones, so there are no more of them. |
| `ShortUrls.RestoreNothingCited` | gemini-fullstack-langgraph-quickstart-02/backend/src/agent/graph.py:221-232 | If no token occurs in the answer, the answer is returned verbatim and no source is kept. |
| `ShortUrls.TestedAgainstRewrittenContent` | gemini-fullstack-langgraph-quickstart-02/backend/src/agent/graph.py:222-227 | A source whose token is absent from the raw answer is kept when an earlier substitution introduced that token. |
| `ShortUrls.RepeatedTokenDropped` | gemini-fullstack-langgraph-quickstart-02/backend/src/agent/graph.py:221-227 | A second source with the same token, right after the first, is dropped when restoring the first removed every occurrence of the token. |
| `ShortUrls.RepeatedTokenMayBeKeptTwice` | gemini-fullstack-langgraph-quickstart-02/backend/src/agent/graph.py:221-227 | Two sources with the same token are both kept when restoring the first leaves an occurrence, so the kept list is not free of duplicates. |
| `ShortUrls.TokenMayRemainAfterRestore` | gemini-fullstack-langgraph-quickstart-02/backend/src/agent/graph.py:224-227 | A kept source's token can still occur in the restored answer. |
| `Graph.DecideWhatToDo` | gemini-fullstack-langgraph-quickstart-02/backend/src/agent/graph.py:235-242 | The router goes to `generate_query` exactly when the flag is present and true. Otherwise, including when the flag is missing, it goes to `handle_non_legal_question`. |
| `Graph.HandleNonLegalQuestion` | gemini-fullstack-langgraph-quickstart-02/backend/src/agent/graph.py:66-76 | The refusal node returns exactly one assistant message, the fixed refusal text. |
| `Graph.GenerateQuery` | gemini-fullstack-langgraph-quickstart-02/backend/src/agent/graph.py:92-116 | The query count in the state is set to the configured default only when it was unset, and is left alone otherwise. The prompt uses the resulting count. The update is the generated query list, uncut. |
| `Graph.ContinueToWebResearch` | gemini-fullstack-langgraph-quickstart-02/backend/src/agent/graph.py:119-127 | There is one `web_research` branch per query. Branch i carries query i and id i. |
| `Graph.FanOutRoundTrip` | gemini-fullstack-langgraph-quickstart-02/backend/src/agent/graph.py:119-127 | Reading the queries back off the branches gives the original list, and no two branches share an id. |
| `Graph.SegmentsMembership` | gemini-fullstack-langgraph-quickstart-02/backend/src/agent/graph.py:174 | A source is gathered exactly when some citation lists it among its segments. |
| `Graph.SegmentsInCitationOrder` | gemini-fullstack-langgraph-quickstart-02/backend/src/agent/graph.py:174 | The flattened sources list each citation's segments after those of all earlier citations and before those of all later ones. |
| `Graph.WebResearch` | gemini-fullstack-langgraph-quickstart-02/backend/src/agent/graph.py:159-184 | A branch always returns singleton lists: its own query and one result text. Without grounding chunks, the text passes through and no source is gathered. With them (a non-empty chunk list, handed to URL resolution with the branch id), the text gets citation markers and the sources are exactly every citation's segments in citation order, so none when there is no citation. |
| `Graph.ChooseAnswerModel` | gemini-fullstack-langgraph-quickstart-02/backend/src/agent/graph.py:201 | The answer model is the state's override when it is set and non-empty, and the configured model otherwise. It is never empty unless the configured model is. |
| `Graph.AnswerPrompt` | gemini-fullstack-langgraph-quickstart-02/backend/src/agent/graph.py:200-209 | The prompt uses the chosen model and the research results joined with the separator, and every result appears in the summaries. |
| `Graph.FinalizeAnswer` | gemini-fullstack-langgraph-quickstart-02/backend/src/agent/graph.py:220-232 | The restore loop computes `Restore`. The returned sources are an order-preserving subsequence of the gathered ones. When no token occurs, the message is the answer verbatim and the source list is empty. |

## Left out

- Every language-model and search call (classification, query writing, grounded search, answer synthesis): their results are parameters.
- `classify_question`: beyond its model call, it only copies the returned flag into the state.
- Loading the environment and the check for the API key at start-up: these are process I/O.
- Building and compiling the graph, its edges, and the list-append merge of the branches' partial states: these are orchestration and concurrency in the graph library and in `state.py`, which is not part of this model.
- `resolve_urls`, `get_citations`, `insert_citation_markers` and `get_research_topic`: `utils.py` is not part of this model. The first three are uninterpreted function parameters. `get_research_topic` only feeds prompt text in `generate_query` and `finalize_answer`, and prompt text is left out.
- Prompt templates and `str.format` substitution, and `get_current_date`, which reads the clock.
- `Configuration.from_runnable_config`: `configuration.py` is not part of this model. A `Configuration` value is taken as given.
- In a search response, a missing candidate list and an empty one are the same input (both fail the grounding guard alike). Only the fields of the response that the code reads are modelled.
