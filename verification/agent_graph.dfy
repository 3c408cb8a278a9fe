/** The agent's control loop: a two-node graph in which the `agent` node
    asks the language model for the next message and the `tools` node runs
    the tool calls that message requests, until the model answers without
    calling a tool. The model and the tool executor are oracles. */
module AgentGraph {
  import opened Results
  import opened Retrieval
  import AgentTools

  datatype Role = Human | Ai | Tool

  /** A tool invocation requested by the model; both registered tools take
      one string argument. */
  datatype ToolCall = ToolCall(id: string, name: string, arg: string)

  /** One conversation turn; `toolCallId` is set on tool results only. */
  datatype Message = Message(role: Role, content: string, toolCalls: seq<ToolCall>, toolCallId: Option<string>)

  function HumanMessage(text: string): Message
  {
    Message(Human, text, [], None)
  }

  function Last(messages: seq<Message>): Message
    requires |messages| > 0
  {
    messages[|messages| - 1]
  }

  /** The language model bound to the tools: the next message for a history. */
  type Model = seq<Message> -> Message

  /** The tools node: the messages it adds for a history whose last message
      requests tool calls. */
  type Executor = seq<Message> -> seq<Message>

  /** The graph's nodes; `End` is the terminal marker, not a node that runs. */
  datatype Node = AgentNode | ToolsNode | End

  /** Runs start at the agent node. */
  const EntryNode: Node := AgentNode

  /** `should_continue`: go to the tools node exactly when the last message
      requests at least one tool call, otherwise finish. */
  function ShouldContinue(messages: seq<Message>): (r: Node)
    requires |messages| > 0
    ensures r != AgentNode
    ensures r == ToolsNode <==> Last(messages).toolCalls != []
  {
    if |Last(messages).toolCalls| > 0 then ToolsNode else End
  }

  /** The messages a node adds to the history: the agent node adds the
      model's one reply, the tools node whatever the executor returns. */
  function NodeUpdate(model: Model, exec: Executor, node: Node, history: seq<Message>): seq<Message>
    requires node != End
  {
    if node == AgentNode then [model(history)] else exec(history)
  }

  /** The edges: a conditional one out of the agent node, a fixed one from
      the tools node back to the agent node. */
  function Route(node: Node, history: seq<Message>): Node
    requires node != End && (node == AgentNode ==> |history| > 0)
  {
    if node == AgentNode then ShouldContinue(history) else AgentNode
  }

  /** One executed node: which node ran, and the history before and after. */
  datatype Visit = Visit(node: Node, before: seq<Message>, after: seq<Message>)

  /** `Finished` when the graph reached its end; `OutOfFuel` when the run
      was cut short by the model's step bound, which the code does not have. */
  datatype Status = Finished | OutOfFuel

  datatype Outcome = Outcome(status: Status, visits: seq<Visit>, history: seq<Message>)

  /** Executes the graph from `node` on `history`, at most `fuel` node
      visits. The history only grows, and a finished run ends on a message
      without tool calls. */
  function Run(model: Model, exec: Executor, node: Node, history: seq<Message>, fuel: nat): (r: Outcome)
    requires node != End
    ensures history <= r.history
    ensures |r.visits| <= fuel
    ensures r.status == Finished ==> |r.visits| > 0 && |r.history| > |history| && Last(r.history).toolCalls == []
    ensures r.status == OutOfFuel ==> |r.visits| == fuel
    decreases fuel
  {
    if fuel == 0 then Outcome(OutOfFuel, [], history)
    else
      var after := history + NodeUpdate(model, exec, node, history);
      var visit := Visit(node, history, after);
      if node == AgentNode && ShouldContinue(after) == End then Outcome(Finished, [visit], after)
      else
        var next := Route(node, after);
        var rest := Run(model, exec, next, after, fuel - 1);
        Outcome(rest.status, [visit] + rest.visits, rest.history)
  }

  /** `analyze(question)`: run the graph from a history holding only the
      question and return the content of the final message. */
  function Analyze(model: Model, exec: Executor, question: string, fuel: nat): Option<string>
  {
    var r := Run(model, exec, EntryNode, [HumanMessage(question)], fuel);
    if r.status == Finished then Some(Last(r.history).content) else None
  }

  /** A visit changed the history the way its node prescribes: the agent
      node appended exactly the model's reply to the history it saw, the
      tools node appended the executor's messages. */
  ghost predicate StepFollowsNode(model: Model, exec: Executor, v: Visit)
  {
    && v.node != End
    && (v.node == AgentNode ==> v.after == v.before + [model(v.before)])
    && (v.node == ToolsNode ==> v.after == v.before + exec(v.before))
  }

  /** Peels the first visit off a run that did not stop at it. */
  lemma RunUnfold(model: Model, exec: Executor, node: Node, history: seq<Message>, fuel: nat)
    requires node != End && fuel > 0
    requires var after := history + NodeUpdate(model, exec, node, history);
      !(node == AgentNode && ShouldContinue(after) == End)
    ensures var after := history + NodeUpdate(model, exec, node, history);
      var rest := Run(model, exec, Route(node, after), after, fuel - 1);
      var r := Run(model, exec, node, history, fuel);
      r.visits == [Visit(node, history, after)] + rest.visits && r.history == rest.history &&
      r.status == rest.status &&
      forall i :: 1 <= i < |r.visits| ==> r.visits[i] == rest.visits[i - 1]
  {
  }

  /** A run's first visit is at the starting node on the starting history. */
  lemma RunStart(model: Model, exec: Executor, node: Node, history: seq<Message>, fuel: nat)
    requires node != End
    ensures var vs := Run(model, exec, node, history, fuel).visits;
      |vs| > 0 ==> vs[0].node == node && vs[0].before == history
  {
  }

  /** Every visit does its node's update. */
  lemma {:induction false} RunSteps(model: Model, exec: Executor, node: Node, history: seq<Message>, fuel: nat)
    requires node != End
    ensures var vs := Run(model, exec, node, history, fuel).visits;
      forall i :: 0 <= i < |vs| ==> StepFollowsNode(model, exec, vs[i])
    decreases fuel
  {
    var r := Run(model, exec, node, history, fuel);
    if fuel > 0 {
      var after := history + NodeUpdate(model, exec, node, history);
      assert StepFollowsNode(model, exec, Visit(node, history, after));
      if !(node == AgentNode && ShouldContinue(after) == End) {
        var next := Route(node, after);
        var rest := Run(model, exec, next, after, fuel - 1);
        RunSteps(model, exec, next, after, fuel - 1);
        RunUnfold(model, exec, node, history, fuel);
        forall i | 1 <= i < |r.visits|
          ensures StepFollowsNode(model, exec, r.visits[i])
        {
          assert r.visits[i] == rest.visits[i - 1];
        }
      }
    }
  }

  /** Each visit hands its history to the next. */
  lemma {:induction false} RunLinks(model: Model, exec: Executor, node: Node, history: seq<Message>, fuel: nat)
    requires node != End
    ensures var vs := Run(model, exec, node, history, fuel).visits;
      forall i :: 0 <= i < |vs| - 1 ==> vs[i + 1].before == vs[i].after
    decreases fuel
  {
    var r := Run(model, exec, node, history, fuel);
    if fuel > 0 {
      var after := history + NodeUpdate(model, exec, node, history);
      if !(node == AgentNode && ShouldContinue(after) == End) {
        var next := Route(node, after);
        var rest := Run(model, exec, next, after, fuel - 1);
        RunLinks(model, exec, next, after, fuel - 1);
        RunStart(model, exec, next, after, fuel - 1);
        RunUnfold(model, exec, node, history, fuel);
        assert |rest.visits| > 0 ==> r.visits[1].before == r.visits[0].after;
        forall i | 1 <= i < |r.visits| - 1
          ensures r.visits[i + 1].before == r.visits[i].after
        {
          assert r.visits[i] == rest.visits[i - 1];
          assert r.visits[i + 1] == rest.visits[i];
        }
      }
    }
  }

  /** The last visit leaves the run's final history. */
  lemma {:induction false} RunEndsOnLastVisit(model: Model, exec: Executor, node: Node, history: seq<Message>, fuel: nat)
    requires node != End
    ensures var r := Run(model, exec, node, history, fuel);
      |r.visits| > 0 ==> r.visits[|r.visits| - 1].after == r.history
    decreases fuel
  {
    var r := Run(model, exec, node, history, fuel);
    if fuel > 0 {
      var after := history + NodeUpdate(model, exec, node, history);
      if !(node == AgentNode && ShouldContinue(after) == End) {
        var next := Route(node, after);
        var rest := Run(model, exec, next, after, fuel - 1);
        RunEndsOnLastVisit(model, exec, next, after, fuel - 1);
        RunUnfold(model, exec, node, history, fuel);
        if |rest.visits| > 0 {
          assert r.visits[|r.visits| - 1] == rest.visits[|rest.visits| - 1];
        }
      }
    }
  }

  /** A run alternates nodes: from the agent node it visits agent, tools,
      agent, ..., so the tools node always leads back to the agent node. */
  lemma {:induction false} RunAlternates(model: Model, exec: Executor, node: Node, history: seq<Message>, fuel: nat)
    requires node != End
    ensures var vs := Run(model, exec, node, history, fuel).visits;
      forall i :: 0 <= i < |vs| ==>
        vs[i].node == if (i % 2 == 0) == (node == AgentNode) then AgentNode else ToolsNode
    decreases fuel
  {
    var r := Run(model, exec, node, history, fuel);
    if fuel > 0 {
      var after := history + NodeUpdate(model, exec, node, history);
      if !(node == AgentNode && ShouldContinue(after) == End) {
        var next := Route(node, after);
        var rest := Run(model, exec, next, after, fuel - 1);
        RunAlternates(model, exec, next, after, fuel - 1);
        RunUnfold(model, exec, node, history, fuel);
        forall i | 1 <= i < |r.visits|
          ensures r.visits[i].node == if (i % 2 == 0) == (node == AgentNode) then AgentNode else ToolsNode
        {
          assert r.visits[i] == rest.visits[i - 1];
          assert ((i - 1) % 2 == 0) == !(i % 2 == 0);
        }
      }
    }
  }

  /** An agent visit that is not the run's last handed over to the tools
      node because its reply requested tools. */
  lemma {:induction false} RunContinuesOnToolCalls(model: Model, exec: Executor, node: Node, history: seq<Message>, fuel: nat)
    requires node != End
    ensures var vs := Run(model, exec, node, history, fuel).visits;
      forall i :: 0 <= i < |vs| - 1 && vs[i].node == AgentNode ==>
        |vs[i].after| > 0 && Last(vs[i].after).toolCalls != []
    decreases fuel
  {
    var r := Run(model, exec, node, history, fuel);
    if fuel > 0 {
      var after := history + NodeUpdate(model, exec, node, history);
      if !(node == AgentNode && ShouldContinue(after) == End) {
        var next := Route(node, after);
        var rest := Run(model, exec, next, after, fuel - 1);
        RunContinuesOnToolCalls(model, exec, next, after, fuel - 1);
        RunUnfold(model, exec, node, history, fuel);
        forall i | 1 <= i < |r.visits| - 1 && r.visits[i].node == AgentNode
          ensures |r.visits[i].after| > 0 && Last(r.visits[i].after).toolCalls != []
        {
          assert r.visits[i] == rest.visits[i - 1];
        }
      }
    }
  }

  /** A finished run's last visit is at the agent node. */
  lemma {:induction false} RunFinishesAtAgent(model: Model, exec: Executor, node: Node, history: seq<Message>, fuel: nat)
    requires node != End
    ensures var r := Run(model, exec, node, history, fuel);
      r.status == Finished ==> r.visits[|r.visits| - 1].node == AgentNode
    decreases fuel
  {
    if fuel > 0 {
      var after := history + NodeUpdate(model, exec, node, history);
      if !(node == AgentNode && ShouldContinue(after) == End) {
        var next := Route(node, after);
        RunFinishesAtAgent(model, exec, next, after, fuel - 1);
        RunUnfold(model, exec, node, history, fuel);
      }
    }
  }

  /** The model's first call sees exactly one message: the human question. */
  lemma AnalyzeStartsFromQuestion(model: Model, exec: Executor, question: string, fuel: nat)
    requires fuel > 0
    ensures var vs := Run(model, exec, EntryNode, [HumanMessage(question)], fuel).visits;
      |vs| > 0 && vs[0].node == AgentNode && vs[0].before == [HumanMessage(question)] &&
      vs[0].after == [HumanMessage(question), model([HumanMessage(question)])]
  {
    RunStart(model, exec, EntryNode, [HumanMessage(question)], fuel);
    RunSteps(model, exec, EntryNode, [HumanMessage(question)], fuel);
  }

  /** An answer is always the content of a model reply that requests no
      tools, given to a history that begins with the question. */
  lemma AnalyzeAnswer(model: Model, exec: Executor, question: string, fuel: nat)
    ensures Analyze(model, exec, question, fuel).Some? ==>
      exists h :: |h| > 0 && h[0] == HumanMessage(question) && model(h).toolCalls == [] &&
        Analyze(model, exec, question, fuel).value == model(h).content
  {
    var start := [HumanMessage(question)];
    var r := Run(model, exec, EntryNode, start, fuel);
    if r.status == Finished {
      RunSteps(model, exec, EntryNode, start, fuel);
      RunEndsOnLastVisit(model, exec, EntryNode, start, fuel);
      RunFinishesAtAgent(model, exec, EntryNode, start, fuel);
      var v := r.visits[|r.visits| - 1];
      assert StepFollowsNode(model, exec, v);
      assert v.after == v.before + [model(v.before)];
      assert r.history == v.after;
      PrefixChain(model, exec, start, fuel, |r.visits| - 1);
      assert v.before[0] == HumanMessage(question);
    }
  }

  /** Every visit of a run sees a history that extends the starting one. */
  lemma {:induction false} PrefixChain(model: Model, exec: Executor, history: seq<Message>, fuel: nat, k: nat)
    requires k < |Run(model, exec, EntryNode, history, fuel).visits|
    ensures history <= Run(model, exec, EntryNode, history, fuel).visits[k].before
    decreases k
  {
    var vs := Run(model, exec, EntryNode, history, fuel).visits;
    RunStart(model, exec, EntryNode, history, fuel);
    RunSteps(model, exec, EntryNode, history, fuel);
    RunLinks(model, exec, EntryNode, history, fuel);
    if k > 0 {
      PrefixChain(model, exec, history, fuel, k - 1);
      assert StepFollowsNode(model, exec, vs[k - 1]);
      assert vs[k].before == vs[k - 1].after;
    }
  }

  /** A model that answers the question without calling a tool ends the run
      after a single agent visit, and that answer is returned. */
  lemma DirectAnswer(model: Model, exec: Executor, question: string, fuel: nat)
    requires fuel > 0
    requires model([HumanMessage(question)]).toolCalls == []
    ensures var start := [HumanMessage(question)];
      Run(model, exec, EntryNode, start, fuel).visits ==
        [Visit(AgentNode, start, start + [model(start)])]
    ensures Analyze(model, exec, question, fuel) == Some(model([HumanMessage(question)]).content)
  {
  }

  /** A model that requests a tool on the first turn and answers on the
      second visits agent, tools, agent; its second call sees the tool
      output, and its second reply is returned. */
  lemma OneToolRound(model: Model, exec: Executor, question: string, fuel: nat)
    requires fuel >= 3
    requires var h1 := [HumanMessage(question), model([HumanMessage(question)])];
      h1[1].toolCalls != [] && model(h1 + exec(h1)).toolCalls == []
    ensures var h1 := [HumanMessage(question), model([HumanMessage(question)])];
      var h2 := h1 + exec(h1);
      var vs := Run(model, exec, EntryNode, [HumanMessage(question)], fuel).visits;
      |vs| == 3 && vs[0].node == AgentNode && vs[1].node == ToolsNode && vs[2].node == AgentNode &&
      vs[2].before == h2 &&
      Analyze(model, exec, question, fuel) == Some(model(h2).content)
  {
    var start := [HumanMessage(question)];
    var h1 := start + [model(start)];
    assert h1 == [HumanMessage(question), model([HumanMessage(question)])];
    var h2 := h1 + exec(h1);
    assert Last(h1).toolCalls != [];
    var r2 := Run(model, exec, AgentNode, h2, fuel - 2);
    var h3 := h2 + [model(h2)];
    assert Last(h3).toolCalls == [];
    assert r2.visits == [Visit(AgentNode, h2, h3)];
  }

  /** A finished run from the agent node made an odd number of visits:
      one more agent visit than tools visits. */
  lemma FinishedRunIsOdd(model: Model, exec: Executor, history: seq<Message>, fuel: nat)
    ensures var r := Run(model, exec, AgentNode, history, fuel);
      r.status == Finished ==> |r.visits| % 2 == 1
  {
    RunAlternates(model, exec, AgentNode, history, fuel);
    RunFinishesAtAgent(model, exec, AgentNode, history, fuel);
  }

  // ---------------------------------------------------------------------
  // a reference tools node over the registered tools

  /** The tool result for `call`: the registered tool's output, or the text
      `unknown` gives for a name no tool has. */
  function ToolResult(search: Search, unknown: string -> string, call: ToolCall): Message
  {
    var text := match AgentTools.InvokeTool(search, call.name, call.arg)
      case Some(out) => out
      case None => unknown(call.name);
    Message(Tool, text, [], Some(call.id))
  }

  /** Runs every tool call of the history's last message, in order. */
  function ExecuteToolCalls(search: Search, unknown: string -> string, history: seq<Message>): seq<Message>
  {
    if |history| == 0 then []
    else
      var calls := Last(history).toolCalls;
      seq(|calls|, i requires 0 <= i < |calls| => ToolResult(search, unknown, calls[i]))
  }

  /** The executor built from the two registered tools. */
  function ReferenceExecutor(search: Search, unknown: string -> string): Executor
  {
    h => ExecuteToolCalls(search, unknown, h)
  }

  /** Call ids within one message are pairwise different. */
  ghost predicate DistinctIds(calls: seq<ToolCall>)
  {
    forall i, j :: 0 <= i < |calls| && 0 <= j < |calls| && calls[i].id == calls[j].id ==> i == j
  }

  /** The reference tools node answers every pending call of the agent's
      last message with exactly one tool message carrying that call's id,
      in call order, and nothing else; the content is the named tool's
      output on the call's argument. */
  lemma ToolResultsPairWithCalls(search: Search, unknown: string -> string, history: seq<Message>)
    requires |history| > 0 && DistinctIds(Last(history).toolCalls)
    ensures var calls := Last(history).toolCalls;
      var out := ReferenceExecutor(search, unknown)(history);
      |out| == |calls| &&
      (forall j :: 0 <= j < |out| ==> out[j].role == Tool && out[j].toolCalls == []) &&
      (forall i, j :: 0 <= i < |calls| && 0 <= j < |out| ==>
        (out[j].toolCallId == Some(calls[i].id) <==> i == j))
    ensures var calls := Last(history).toolCalls;
      var out := ReferenceExecutor(search, unknown)(history);
      forall j :: 0 <= j < |out| ==>
        (calls[j].name == AgentTools.SearchToolName ==> out[j].content == AgentTools.SearchTool(search, calls[j].arg)) &&
        (calls[j].name == AgentTools.RiskCheckToolName ==> out[j].content == AgentTools.RiskCheck(calls[j].arg))
  {
  }

  /** In a run from the agent node, every tools visit comes right after an
      agent visit whose reply requested tools, and appends the executor's
      messages for exactly that history. */
  lemma ToolsVisitFollowsAgent(model: Model, exec: Executor, history: seq<Message>, fuel: nat, k: nat)
    requires var vs := Run(model, exec, AgentNode, history, fuel).visits;
      k < |vs| && vs[k].node == ToolsNode
    ensures var vs := Run(model, exec, AgentNode, history, fuel).visits;
      k > 0 && vs[k - 1].node == AgentNode && vs[k].before == vs[k - 1].after &&
      |vs[k].before| > 0 && Last(vs[k].before).toolCalls != [] &&
      vs[k].after == vs[k].before + exec(vs[k].before)
  {
    var vs := Run(model, exec, AgentNode, history, fuel).visits;
    assert k > 0 && vs[k - 1].node == AgentNode by {
      RunAlternates(model, exec, AgentNode, history, fuel);
      assert vs[k].node == if k % 2 == 0 then AgentNode else ToolsNode;
      if k > 0 {
        assert ((k - 1) % 2 == 0) == !(k % 2 == 0);
        assert vs[k - 1].node == if (k - 1) % 2 == 0 then AgentNode else ToolsNode;
      }
    }
    assert StepFollowsNode(model, exec, vs[k]) by {
      RunSteps(model, exec, AgentNode, history, fuel);
    }
    assert vs[k].before == vs[k - 1].after by {
      RunLinks(model, exec, AgentNode, history, fuel);
    }
    assert |vs[k - 1].after| > 0 && Last(vs[k - 1].after).toolCalls != [] by {
      RunContinuesOnToolCalls(model, exec, AgentNode, history, fuel);
    }
  }

  /** With the reference tools node, each tools visit answers the calls of
      the agent reply before it one for one, by id and in order. */
  lemma ToolsVisitAnswersCalls(search: Search, unknown: string -> string, model: Model, history: seq<Message>, fuel: nat, k: nat)
    requires var vs := Run(model, ReferenceExecutor(search, unknown), AgentNode, history, fuel).visits;
      k < |vs| && vs[k].node == ToolsNode
    ensures var vs := Run(model, ReferenceExecutor(search, unknown), AgentNode, history, fuel).visits;
      k > 0 && vs[k - 1].node == AgentNode && |vs[k].before| > 0 &&
      var calls := Last(vs[k].before).toolCalls;
      calls != [] &&
      |vs[k].after| == |vs[k].before| + |calls| &&
      vs[k].after[..|vs[k].before|] == vs[k].before &&
      forall j :: 0 <= j < |calls| ==>
        vs[k].after[|vs[k].before| + j] == ToolResult(search, unknown, calls[j])
  {
    var exec := ReferenceExecutor(search, unknown);
    var vs := Run(model, exec, AgentNode, history, fuel).visits;
    ToolsVisitFollowsAgent(model, exec, history, fuel, k);
    var before := vs[k].before;
    assert exec(before) == ExecuteToolCalls(search, unknown, before);
  }
}
