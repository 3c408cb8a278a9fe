/** The grounded-answer path: retrieved chunks are rendered as a bulleted
    source list, substituted with the query into a fixed prompt template,
    and sent as a two-message chat. The search and the chat completion are
    oracles; only the text built and the parameters passed are modelled. */
module RagUtils {
  import opened Text
  import opened Results
  import opened Retrieval

  // ---------------------------------------------------------------------
  // prompt templates

  /** A `str.format` template, already split into literal text and named
      replacement fields. */
  datatype Piece = Literal(text: string) | Field(name: string)

  /** The template has a field that `values` gives no value for. */
  ghost predicate MentionsUnbound(template: seq<Piece>, values: map<string, string>)
  {
    exists i :: 0 <= i < |template| && template[i].Field? && template[i].name !in values
  }

  /** One piece: literal text as is, a field by its value, `KeyError`
      for a field without a value. */
  function RenderPiece(piece: Piece, values: map<string, string>): Result<string>
  {
    match piece
    case Literal(text) => Success(text)
    case Field(name) => if name in values then Success(values[name]) else Failure("KeyError")
  }

  /** `template.format(**values)`: the pieces rendered in order and
      concatenated; the first failing piece's error otherwise. Formatting
      fails (`KeyError`) exactly when the template mentions a field that
      has no value. */
  function Render(template: seq<Piece>, values: map<string, string>): (r: Result<string>)
    ensures r.Failure? <==> MentionsUnbound(template, values)
    decreases |template|
  {
    if |template| == 0 then Success("")
    else
      var head := RenderPiece(template[0], values);
      var rest := Render(template[1..], values);
      assert MentionsUnbound(template[1..], values) ==> MentionsUnbound(template, values) by {
        if MentionsUnbound(template[1..], values) {
          var i :| 0 <= i < |template[1..]| && template[1..][i].Field? && template[1..][i].name !in values;
          assert template[i + 1] == template[1..][i];
        }
      }
      assert MentionsUnbound(template, values) && head.Success? ==> MentionsUnbound(template[1..], values) by {
        if MentionsUnbound(template, values) && head.Success? {
          var i :| 0 <= i < |template| && template[i].Field? && template[i].name !in values;
          assert i > 0;
          assert template[1..][i - 1] == template[i];
        }
      }
      if head.Failure? then head
      else if rest.Failure? then rest
      else Success(head.value + rest.value)
  }

  /** Rendering a concatenation renders each part and concatenates the
      results; it fails when either part does. */
  lemma {:induction false} RenderAppend(a: seq<Piece>, b: seq<Piece>, values: map<string, string>)
    ensures Render(a + b, values) ==
      if Render(a, values).Failure? then Render(a, values)
      else if Render(b, values).Failure? then Render(b, values)
      else Success(Render(a, values).value + Render(b, values).value)
    decreases |a|
  {
    if |a| > 0 {
      assert (a + b)[0] == a[0];
      assert (a + b)[1..] == a[1..] + b;
      RenderAppend(a[1..], b, values);
      var h, ra, rb := RenderPiece(a[0], values), Render(a[1..], values), Render(b, values);
      if h.Success? && ra.Success? && rb.Success? {
        assert h.value + (ra.value + rb.value) == (h.value + ra.value) + rb.value;
      }
    } else {
      assert a + b == b;
      if Render(b, values).Success? {
        assert "" + Render(b, values).value == Render(b, values).value;
      }
    }
  }

  /** A one-piece template renders to its text or its field's value. */
  lemma RenderOne(piece: Piece, values: map<string, string>, text: string)
    requires piece.Literal? ==> piece.text == text
    requires piece.Field? ==> piece.name in values && values[piece.name] == text
    ensures Render([piece], values) == Success(text)
  {
    assert [piece][1..] == [];
    assert text + "" == text;
  }

  /** The instruction block of `GROUNDED_PROMPT`, up to the query line. */
  const Instructions: string :=
    "\nYou are an AI assistant that helps users learn from the information found in the source material." +
    "\nAnswer the query using only the sources provided below." +
    "\nUse bullets if the answer has multiple points." +
    "\nIf the answer is longer than 3 sentences, provide a summary." +
    "\nAnswer ONLY with the facts listed in the list of sources below. Cite your source when you answer the question" +
    "\nIf there isn't enough information below, say you don't know." +
    "\nDo not generate answers that don't use the sources below.\n"

  /** `GROUNDED_PROMPT`: the instructions, then `Query: {query}`, then
      `Sources:` and `{sources}` on lines of their own. */
  const GroundedPrompt: seq<Piece> :=
    [Literal(Instructions + "Query: "), Field("query"), Literal("\nSources:\n"), Field("sources"), Literal("\n")]

  /** `GROUNDED_PROMPT.format(query=..., sources=...)`. The result is the
      template's text with the query right after "Query: " and the sources
      right after the "Sources:" line. */
  function UserPrompt(query: string, sources: string): (r: string)
    ensures r == Instructions + "Query: " + query + "\nSources:\n" + sources + "\n"
  {
    var values := map["query" := query, "sources" := sources];
    RenderGroundedPrompt(query, sources);
    Render(GroundedPrompt, values).value
  }

  /** Both fields of the grounded prompt are bound, so formatting succeeds
      and substitutes each field once. */
  lemma RenderGroundedPrompt(query: string, sources: string)
    ensures var r := Render(GroundedPrompt, map["query" := query, "sources" := sources]);
      r == Success(Instructions + "Query: " + query + "\nSources:\n" + sources + "\n")
  {
    var values := map["query" := query, "sources" := sources];
    var p0, p1, p2, p3, p4 := Literal(Instructions + "Query: "), Field("query"), Literal("\nSources:\n"), Field("sources"), Literal("\n");
    assert GroundedPrompt == [p0] + ([p1] + ([p2] + ([p3] + [p4])));
    RenderOne(p0, values, Instructions + "Query: ");
    RenderOne(p1, values, query);
    RenderOne(p2, values, "\nSources:\n");
    RenderOne(p3, values, sources);
    RenderOne(p4, values, "\n");
    RenderAppend([p3], [p4], values);
    RenderAppend([p2], [p3] + [p4], values);
    RenderAppend([p1], [p2] + ([p3] + [p4]), values);
    RenderAppend([p0], [p1] + ([p2] + ([p3] + [p4])), values);
    assert Instructions + "Query: " + query + "\nSources:\n" + sources + "\n" ==
      (Instructions + "Query: ") + (query + ("\nSources:\n" + (sources + "\n")));
  }

  // ---------------------------------------------------------------------
  // the sources block

  /** One retrieved chunk as a bullet that names its source. */
  function SourceLine(d: Doc): string
  {
    "- " + d.chunk + " (Source: " + d.title + ")"
  }

  function SourceLines(docs: seq<Doc>): (r: seq<string>)
    ensures |r| == |docs|
    ensures forall i :: 0 <= i < |docs| ==> r[i] == SourceLine(docs[i])
  {
    seq(|docs|, i requires 0 <= i < |docs| => SourceLine(docs[i]))
  }

  /** The sources block: one bullet per hit, joined by single line breaks.
      It is empty exactly when nothing was retrieved. Otherwise bullet `i`
      sits at offset `Offset(SourceLines(docs), "\n", i)`, one line break
      follows every bullet but the last, and the last bullet ends the
      block, whatever line breaks the chunks themselves hold. */
  function SourcesText(docs: seq<Doc>): (r: string)
    ensures r == "" <==> |docs| == 0
    ensures |docs| > 0 ==>
      |r| == Offset(SourceLines(docs), "\n", |docs| - 1) + |SourceLine(docs[|docs| - 1])|
    ensures forall i :: 0 <= i < |docs| ==>
      PlacedAt(r, SourceLine(docs[i]), Offset(SourceLines(docs), "\n", i))
    ensures forall i :: 0 <= i < |docs| - 1 ==>
      PlacedAt(r, "\n", Offset(SourceLines(docs), "\n", i) + |SourceLine(docs[i])|)
  {
    var lines := SourceLines(docs);
    JoinEmptyIff(lines, "\n");
    assert |docs| == 1 ==> |SourceLine(docs[0])| >= 2;
    if |docs| == 0 then Join(lines, "\n")
    else
      JoinPlaces(lines, "\n");
      Join(lines, "\n")
  }

  /** A non-empty sources block opens with the first hit's bullet and ends
      with the last hit's, so there is no trailing line break. */
  lemma SourcesTextEnds(docs: seq<Doc>)
    requires |docs| > 0
    ensures var s := SourcesText(docs);
      SourceLine(docs[0]) <= s &&
      |SourceLine(docs[|docs| - 1])| <= |s| &&
      s[|s| - |SourceLine(docs[|docs| - 1])|..] == SourceLine(docs[|docs| - 1]) &&
      s[|s| - 1] == ')'
  {
    var lines := SourceLines(docs);
    JoinStartsWithFirst(lines, "\n");
    JoinEndsWithLast(lines, "\n");
    var s := SourcesText(docs);
    var last := SourceLine(docs[|docs| - 1]);
    assert last[|last| - 1] == ')';
    assert s[|s| - |last|..][|last| - 1] == s[|s| - 1];
  }

  /** When no chunk or title holds a line break, the lines of the sources
      block are exactly the bullets, one per hit in retrieval order. */
  lemma SourcesTextLines(docs: seq<Doc>)
    requires |docs| > 0
    requires forall i :: 0 <= i < |docs| ==> '\n' !in docs[i].chunk && '\n' !in docs[i].title
    ensures Split(SourcesText(docs), '\n') == SourceLines(docs)
  {
    var lines := SourceLines(docs);
    forall i | 0 <= i < |lines|
      ensures '\n' !in lines[i]
    {
      assert lines[i] == "- " + docs[i].chunk + " (Source: " + docs[i].title + ")";
    }
    assert "\n" == ['\n'];
    SplitJoin(lines, '\n');
  }

  // ---------------------------------------------------------------------
  // the chat request and generate_answer

  datatype ChatRole = System | User

  datatype ChatMessage = ChatMessage(role: ChatRole, content: string)

  datatype ChatRequest = ChatRequest(model: string, messages: seq<ChatMessage>)

  /** The completion's choices, each given by its message content. */
  datatype Completion = Completion(choices: seq<string>)

  /** `chat.completions.create`. */
  type Complete = ChatRequest -> Completion

  const DeploymentName: string := "gpt-4o"

  const SystemPrompt: string := "You are a helpful assistant that helps people find information."

  /** The request `generate_answer` sends: the deployment, then a system
      message with the fixed helper text and a user message with the
      grounded prompt for the query and the retrieved hits, in that order. */
  function BuildRequest(query: string, docs: seq<Doc>): (r: ChatRequest)
    ensures r.model == DeploymentName
    ensures |r.messages| == 2
    ensures r.messages[0] == ChatMessage(System, SystemPrompt)
    ensures r.messages[1] == ChatMessage(User,
      Instructions + "Query: " + query + "\nSources:\n" + SourcesText(docs) + "\n")
  {
    ChatRequest(DeploymentName,
      [ChatMessage(System, SystemPrompt), ChatMessage(User, UserPrompt(query, SourcesText(docs)))])
  }

  /** `generate_answer(query, top_k)`: the first choice's content, or
      `IndexError` when the completion has no choices. */
  function GenerateAnswer(search: Search, complete: Complete, query: string, topK: nat := DefaultTopK): (r: Result<string>)
  {
    var docs := SearchDocuments(search, query, topK);
    var completion := complete(BuildRequest(query, docs));
    if |completion.choices| == 0 then Failure("IndexError") else Success(completion.choices[0])
  }

  /** The answer is the first choice of the completion for the request built
      from the `top_k` hits for the query; it fails only when there is no
      choice. */
  lemma GenerateAnswerIsFirstChoice(search: Search, complete: Complete, query: string, topK: nat)
    ensures var c := complete(BuildRequest(query, search(query, topK)));
      var r := GenerateAnswer(search, complete, query, topK);
      (r.Success? <==> |c.choices| > 0) && (r.Success? ==> r.value == c.choices[0])
  {
  }

  /** `top_k` reaches the search unchanged: two searches that agree on the
      query at `top_k` give the same answer. */
  lemma GenerateAnswerForwardsTopK(search: Search, other: Search, complete: Complete, query: string, topK: nat)
    requires search(query, topK) == other(query, topK)
    ensures GenerateAnswer(search, complete, query, topK) == GenerateAnswer(other, complete, query, topK)
  {
  }

  /** Without an explicit `top_k`, five hits are asked for, by both
      `generate_answer` and `search_documents`. */
  lemma DefaultTopKIsFive(search: Search, other: Search, complete: Complete, query: string)
    requires search(query, 5) == other(query, 5)
    ensures SearchDocuments(search, query) == search(query, 5)
    ensures GenerateAnswer(search, complete, query) == GenerateAnswer(other, complete, query)
  {
  }

  /** With nothing retrieved, the prompt's sources block is empty: the
      prompt ends with the "Sources:" line and a blank line. */
  lemma EmptyRetrievalPrompt(query: string)
    ensures BuildRequest(query, []).messages[1].content ==
      Instructions + "Query: " + query + "\nSources:\n\n"
  {
  }
}
