# Contract-risk assistant: tool layer, agent loop and grounded prompt

A Dafny model of the logic in a small document question-answering assistant
for Statement-of-Work (SOW) contracts. The assistant has two paths:

- **Agent path** (`agent_tools.py`). A two-node graph. The `agent` node asks a
  tool-enabled language model for the next message. The `tools` node runs the
  tool calls that message requests. The loop ends when the model replies
  without tool calls. There are two tools:
  - `search_tool` formats document-search hits as `title: chunk[:300]`
    entries separated by blank lines, or says `No documents found`.
  - `risk_check_tool` is a keyword classifier. It raises `No warranty`,
    `Full payment after completion` and `Missing IP clause`, or says
    `No major risks`.
- **Grounded-answer path** (`rag_utils.py`). Retrieved chunks become
  `- chunk (Source: title)` bullets. The bullets and the query are substituted
  into a fixed prompt template. The result goes out as a system + user chat,
  and the answer is the first choice's content.

The language model, the document search and the chat completion are oracles:
total functions passed in as parameters (`AgentGraph.Model`,
`Retrieval.Search`, `RagUtils.Complete`). Only the strings built and the
arguments passed are modelled.

Files and modules:

| file | module | contents |
|---|---|---|
| `results.dfy` | `Results` | `Option` and `Result` (Python exceptions become `Failure`) |
| `text.dfy` | `Text` | ASCII `lower()`, `in`, `str.join`, `str.split`, `[:n]`, and the lemmas linking them |
| `retrieval.dfy` | `Retrieval` | hit record `Doc`, the search oracle, the default `top_k` of 5 |
| `agent_tools.dfy` | `AgentTools` | `search_tool`, `risk_check_tool`, the tool registry, two worked examples |
| `agent_graph.dfy` | `AgentGraph` | messages, `should_continue`, the graph run, `analyze`, a reference tools node |
| `rag_utils.dfy` | `RagUtils` | template rendering, the sources block, the chat request, `generate_answer` |

Design choices:

- "The output contains a flag" is read as "the flag is one of the output's
  lines" (Python's `split("\n")`). The flags hold no line break, so
  `Text.SplitJoin` recovers the exact flag list from the output.
- "Case-insensitive" has its own definition, `Text.ContainsIgnoringCase`,
  which compares characters one by one after lowering. `Text.ContainsLowerIff`
  proves it equals the code's lower-then-search test.
- The graph run is `AgentGraph.Run`. It records every node visit with the
  history before and after. It is bounded by `fuel`, one unit per node visit.
  The code has no turn cap, so `OutOfFuel` comes only from the model.

Behaviour of the code worth knowing:

- Content containing "No intellectual property clause is present" never
  gets "Missing IP clause", because the check at agent_tools.py:36 is a plain
  substring test for "intellectual property"
  (`AgentTools.NegatedIpSentenceSuppressesFlag`). The waiver example, which
  ends with that sentence, gets exactly "No warranty" and "Full payment after
  completion" (`AgentTools.WaiverTextReport`).
- Search entries are joined with `"\n\n"` (agent_tools.py:20), so
  neighbouring entries are separated by a blank line (`AgentTools.FormatResults`).
- The docstring of `risk_check_tool` says it returns 'Document not found'. No
  branch does, and `AgentTools.RiskReportShape` proves it never does.

## Model

| member | source | states |
|---|---|---|
| `Text.LowerChar` | agent_tools.py:30 | lower-casing changes only A-Z (each moves up by 32) and never leaves an upper-case letter |
| `Text.ContainsLowerIff` | agent_tools.py:30-37 | searching the lowered text for a lowered pattern is exactly a case-insensitive search, defined character by character |
| `Text.Take` | agent_tools.py:20 | `s[:n]` is a prefix of `s` whose length is `n`, or `|s|` when `s` is shorter |
| `Text.SplitJoin` | agent_tools.py:39 | splitting a join on its one-character separator gives back the pieces, when no piece contains the separator |
| `Text.JoinDoubled` | agent_tools.py:20 | joining with a doubled separator equals joining, with the single separator, the pieces with an empty piece between neighbours |
| `Text.JoinPlaces` | agent_tools.py:20 | for any non-empty list of pieces, `sep.join` places piece i at `Offset(xs, sep, i)`, puts the separator right after every piece but the last, and ends with the last piece |
| `Text.OffsetStep` | rag_utils.py:82 | each piece's offset is the previous piece's offset plus that piece's length and one separator, so `Offset` is the running sum the join layout needs |
| `AgentTools.EntryShape` | agent_tools.py:20 | each search entry is the title, then ": ", then a prefix of the chunk of length min(300, chunk length) |
| `AgentTools.SearchTool` | agent_tools.py:15-20 | `search_tool`: the top three hits for the query, formatted; "No documents found" if and only if the search finds nothing; `AgentTools.SearchToolUsesTopThree` shows only the (query, 3) search matters |
| `AgentTools.FormatResults` | agent_tools.py:18-20 | the formatted hit list, for any hits including multi-line chunks: "No documents found" if and only if there are no hits; otherwise entry i sits at the summed length of the earlier entries and their separators, a `"\n\n"` follows every entry but the last, and the last entry ends the text |
| `AgentTools.SearchLayout` | agent_tools.py:20 | for single-line hits, the output's lines are the entries in hit order with an empty line between neighbours |
| `AgentTools.SearchToolUsesTopThree` | agent_tools.py:17 | the tool's output depends on the search only through the hits for (query, 3) |
| `AgentTools.RiskFlags` | agent_tools.py:30-37 | the raised flags in check order: at most three, never the sentinel, none holding a line break; `AgentTools.FlagMembership` ties each flag to its check on the lowered text |
| `AgentTools.RiskCheck` | agent_tools.py:24-39 | the report for a text: read back line by line it is exactly the raised flags in check order, or the single line "No major risks"; `AgentTools.NoWarrantyIff`, `AgentTools.FullPaymentIff`, `AgentTools.MissingIpIff` and `AgentTools.RiskReportShape` say when each line appears |
| `AgentTools.NoWarrantyIff` | agent_tools.py:32-33 | "No warranty" is a report line if and only if the content contains "no warranty" in any case |
| `AgentTools.FullPaymentIff` | agent_tools.py:34-35 | "Full payment after completion" is a report line if and only if the content contains "100%" and also "completion" or "after", in any case |
| `AgentTools.MissingIpIff` | agent_tools.py:36-37 | "Missing IP clause" is a report line if and only if the content never contains "intellectual property", in any case |
| `AgentTools.NegatedIpSentenceSuppressesFlag` | agent_tools.py:36-37 | content that says "No intellectual property clause is present" never gets the IP flag |
| `AgentTools.RiskReportShape` | agent_tools.py:25-39 | the report is non-empty, has 1 to 3 lines in warranty, payment, IP order without repeats, equals "No major risks" exactly when no check fires, and is never "Document not found" |
| `AgentTools.RiskCheckIgnoresCase` | agent_tools.py:30 | lower-casing the content first does not change the report |
| `AgentTools.WaiverTextReport` | agent_tools.py:29-39 | the waiver example gets exactly "No warranty" and "Full payment after completion" |
| `AgentTools.StandardTextReport` | agent_tools.py:29-39 | the standard example with IP assignment and milestone payments gets "No major risks" |
| `AgentTools.InvokeTool` | agent_tools.py:54 | exactly the two registered names resolve, each to its own tool applied to the call's argument |
| `AgentGraph.ShouldContinue` | agent_tools.py:63-68 | route to the tools node if and only if the last message has a tool call, otherwise to the end |
| `AgentGraph.NodeUpdate` | agent_tools.py:58-60 | the messages a node adds: the agent node adds the model's single reply to the history, the tools node the executor's output; `AgentGraph.RunSteps` shows every visit appends exactly these |
| `AgentGraph.Run` | agent_tools.py:71-82 | the history only grows, a finished run has made at least one visit and ends on a message without tool calls, and fuel bounds the visits |
| `AgentGraph.RunStart` | agent_tools.py:75 | the first visit is at the entry node and sees the starting history |
| `AgentGraph.RunSteps` | agent_tools.py:58-60 | every agent visit appends exactly one message, the model's reply to the history it saw; every tools visit appends the executor's messages |
| `AgentGraph.RunLinks` | agent_tools.py:42-43 | each visit starts from the history the previous visit left |
| `AgentGraph.RunEndsOnLastVisit` | agent_tools.py:86-87 | the run's final history is the one the last visit left |
| `AgentGraph.Analyze` | agent_tools.py:84-87 | `analyze`: run the graph from the lone question and return the final message's content; `AgentGraph.AnalyzeStartsFromQuestion`, `AgentGraph.AnalyzeAnswer`, `AgentGraph.DirectAnswer` and `AgentGraph.OneToolRound` carry its properties |
| `AgentGraph.RunAlternates` | agent_tools.py:80 | visits alternate agent, tools, agent, ...; the tools node always leads back to the agent node |
| `AgentGraph.RunContinuesOnToolCalls` | agent_tools.py:78 | an agent visit is followed by another visit only when its reply requested tools |
| `AgentGraph.RunFinishesAtAgent` | agent_tools.py:78 | a finished run's last visit is at the agent node |
| `AgentGraph.FinishedRunIsOdd` | agent_tools.py:78-80 | a finished run makes one more agent visit than tools visits |
| `AgentGraph.PrefixChain` | agent_tools.py:43 | every visit sees a history that extends the starting one |
| `AgentGraph.AnalyzeStartsFromQuestion` | agent_tools.py:86 | the model's first call sees exactly one human message holding the question |
| `AgentGraph.AnalyzeAnswer` | agent_tools.py:84-87 | an answer is the content of a tool-free model reply to a history that starts with the question |
| `AgentGraph.DirectAnswer` | agent_tools.py:84-87 | a model that answers at once gives a single agent visit, and its reply's content is returned |
| `AgentGraph.OneToolRound` | agent_tools.py:75-87 | one tool request then an answer gives agent, tools, agent; the second model call sees the tool output, and its reply's content is returned |
| `AgentGraph.ToolsVisitFollowsAgent` | agent_tools.py:78-80 | every tools visit comes right after an agent visit whose reply requested tools, and appends the executor's output for that history |
| `AgentGraph.ExecuteToolCalls` | agent_tools.py:73 | the reference tools node on a history: one tool message per call of the last message, each carrying the call's id and the named tool's output (or the caller's text for an unknown name); `AgentGraph.ToolResultsPairWithCalls` states the pairing |
| `AgentGraph.ReferenceExecutor` | agent_tools.py:73 | `ToolNode(tools)` as an executor for `AgentGraph.Run`; `AgentGraph.ToolsVisitAnswersCalls` shows what each tools visit then appends |
| `AgentGraph.ToolResultsPairWithCalls` | agent_tools.py:73 | the reference tools node gives one tool message per pending call, in order. A message's id matches a call's id exactly when it is that call's answer. Its content is the named tool's output |
| `AgentGraph.ToolsVisitAnswersCalls` | agent_tools.py:73 | in a run with the reference tools node, each tools visit appends, after the history it saw, one answer per call of the preceding reply, in call order |
| `RagUtils.RenderAppend` | rag_utils.py:80-83 | formatting a concatenated template is concatenating the formatted parts, and fails when either part fails |
| `RagUtils.Render` | rag_utils.py:80-83 | `str.format` on a pre-split template: the pieces substituted and concatenated in order; it fails with `KeyError` if and only if the template names a field without a value |
| `RagUtils.RenderGroundedPrompt` | rag_utils.py:80-83 | formatting the grounded template with `query` and `sources` succeeds |
| `RagUtils.UserPrompt` | rag_utils.py:24-34 | the user prompt is the instruction block, then "Query: " and the query, then a "Sources:" line, then the sources and a final line break |
| `RagUtils.SourcesText` | rag_utils.py:82 | the sources block, for any hits including multi-line chunks: empty if and only if nothing was retrieved; otherwise bullet i sits at the summed length of the earlier bullets and their line breaks, one `"\n"` follows every bullet but the last, and the last bullet ends the block |
| `RagUtils.SourcesTextEnds` | rag_utils.py:82 | a non-empty sources block starts with the first hit's bullet and ends with the last hit's bullet, so its last character is ")" and there is no trailing separator |
| `RagUtils.SourcesTextLines` | rag_utils.py:82 | for single-line chunks and titles, the block's lines are exactly the bullets `- chunk (Source: title)`, in retrieval order |
| `RagUtils.BuildRequest` | rag_utils.py:71-86 | the request names the deployment and has two messages: the fixed system text, then the user prompt for the query and the hits |
| `RagUtils.GenerateAnswer` | rag_utils.py:66-88 | `generate_answer`: search for `top_k` hits, send the built request, return the first choice or fail with `IndexError`; `RagUtils.GenerateAnswerIsFirstChoice`, `RagUtils.GenerateAnswerForwardsTopK` and `RagUtils.DefaultTopKIsFive` carry its properties |
| `RagUtils.GenerateAnswerIsFirstChoice` | rag_utils.py:88 | the answer is the first choice of the completion for the built request, and fails if and only if there is no choice |
| `RagUtils.GenerateAnswerForwardsTopK` | rag_utils.py:69 | the answer depends on the search only through the hits for (query, top_k) |
| `Retrieval.SearchDocuments` | rag_utils.py:51-64 | `search_documents`: the ranked hits the search service gives for the query and `top_k`, by default 5 (`RagUtils.DefaultTopKIsFive`) |
| `RagUtils.DefaultTopKIsFive` | rag_utils.py:51-69 | `search_documents` and `generate_answer` both default `top_k` to 5 |
| `RagUtils.EmptyRetrievalPrompt` | rag_utils.py:82-83 | with no hits, the prompt ends with the "Sources:" line followed by an empty line |

## Left out

- `rag.py`: provisioning of the search index, vectorizer, data source, skillset and indexer. It is configuration objects and network calls with no logic to state.
- `streamlit_app.py`: the UI and its two-way mode switch.
- `get_search_client`, `get_openai_client` and the body of `search_documents`: thin SDK wrappers. Hybrid and semantic ranking happen in the remote service, so the search is an oracle.
- Network and service failures of the search, the chat completion and the agent's model call `llm_with_tools.invoke` (agent_tools.py:60). The code lets those exceptions propagate, so `generate_answer` and `analyze` would raise; `AgentGraph.Model`, `Retrieval.Search` and `RagUtils.Complete` are total and the model has no error for them. The one modelled failure is `IndexError` for a completion with no choices.
- The language model's choices, the model parameters (`api_version`, deployment) of the agent's chat client, and `bind_tools` schema generation.
- The graph library's message reducer deduplicates messages by id. The model appends instead, which is what happens for fresh messages.
- The graph library's tools node internals: concurrent execution, conversion of exceptions into error messages, and its wording for unknown tool names. `AgentGraph.Run` takes any executor. `AgentGraph.ReferenceExecutor` answers each call in order, and the caller supplies the text for unknown names.
- `AgentGraph.Analyze`: returns `None` when fuel runs out. The code sets no step bound of its own; the graph library's default recursion limit ends a runaway run with an exception, which the model does not reproduce.
- Tool-call arguments: the graph library passes each call an argument dictionary keyed by parameter name (`query`, `content`) and checks it against the tool's schema; a missing or misnamed key becomes an error message from the tools node. `AgentGraph.ToolCall` carries one string argument that goes to the named tool, so that case is not represented.
- Python's Unicode `str.lower()`: only ASCII letters are lowered.
- Python's `str.format` parsing of `GROUNDED_PROMPT`: the template is given already split into text and fields. The text has no braces other than the two fields.
- The truthiness of the paged search-result iterator: results are a finite sequence, and "no results" means length 0.
- `top_k` is a natural number. Python would also accept negative values.
- `message.content` of a completion choice can be null in the API. Here it is a string.
- Environment and credential loading, timeouts and concurrency.
