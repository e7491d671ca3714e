/** agents/rag_agent.py: the chat agent as a three-node graph over a
    message history.  The language model and the similarity search are
    parameters: `llmWithTools` (the model bound to the `retrieve` tool) and
    `llm` each answer a prompt with one message, `search` returns the page
    contents of the best `k` chunks for a query. */
module RagAgent {
  import opened Strings
  import opened Seqs

  datatype Kind = Human | System | Ai | Tool

  /** A tool call carries the query the model asks `retrieve` for. */
  datatype ToolCall = ToolCall(query: string)

  /** A chat message; only AI messages carry tool calls. */
  datatype Message = Message(kind: Kind, content: string, toolCalls: seq<ToolCall>)

  function SystemMessage(content: string): Message {
    Message(System, content, [])
  }

  const RetrieveK: nat := 10
  const DocumentSeparator: string := "\n\n"

  function Entry(content: string): string {
    "Document: " + content
  }

  /** The text `retrieve` returns: every document as `Document: <content>`,
      joined by blank lines in retrieval order. */
  function Serialize(contents: seq<string>): (r: string)
    ensures |contents| == 0 ==> r == ""
    ensures |contents| > 0 ==> Entry(contents[0]) <= r
  {
    Join(DocumentSeparator, seq(|contents|, i requires 0 <= i < |contents| => Entry(contents[i])))
  }

  /** Each further document adds one blank line and its own entry. */
  lemma SerializeSnoc(contents: seq<string>, next: string)
    ensures Serialize(contents + [next]) ==
              if |contents| == 0 then Entry(next) else Serialize(contents) + DocumentSeparator + Entry(next)
  {
    var entries := seq(|contents|, i requires 0 <= i < |contents| => Entry(contents[i]));
    var more := contents + [next];
    assert seq(|more|, i requires 0 <= i < |more| => Entry(more[i])) == entries + [Entry(next)];
    if |contents| > 0 {
      JoinSnoc(DocumentSeparator, entries, Entry(next));
    }
  }

  /** `retrieve`: the ten best documents for the query, serialised, and the
      documents themselves as the artifact. */
  function Retrieve(query: string, search: (string, nat) -> seq<string>): (r: (string, seq<string>))
    ensures r.1 == search(query, RetrieveK)
    ensures r.0 == Serialize(r.1)
    ensures |r.1| == 0 ==> r.0 == ""
    ensures |r.1| == 1 ==> r.0 == "Document: " + r.1[0]
  {
    var docs := search(query, RetrieveK);
    (Serialize(docs), docs)
  }

  /** `query_or_respond`: the model sees the agent prompt followed by the
      whole history, and its reply is appended. */
  function QueryOrRespond(prompt: string, history: seq<Message>, llmWithTools: seq<Message> -> Message): (r: seq<Message>)
    ensures |r| == |history| + 1 && r[..|history|] == history
    ensures r[|history|] == llmWithTools([SystemMessage(prompt)] + history)
  {
    history + [llmWithTools([SystemMessage(prompt)] + history)]
  }

  predicate HasToolCalls(m: Message) {
    m.kind == Ai && |m.toolCalls| > 0
  }

  /** The tool node: one tool message per call of the last message, in call
      order. */
  function RunTools(history: seq<Message>, search: (string, nat) -> seq<string>): (r: seq<Message>)
    ensures |history| > 0 ==> |r| == |history| + |history[|history| - 1].toolCalls|
    ensures |r| >= |history| && r[..|history|] == history
    ensures forall k :: |history| <= k < |r| ==> r[k].kind == Tool
    ensures |history| > 0 ==>
              var calls := history[|history| - 1].toolCalls;
              forall i :: 0 <= i < |calls| ==>
                r[|history| + i] == Message(Tool, Retrieve(calls[i].query, search).0, [])
  {
    if |history| == 0 then history
    else
      var calls := history[|history| - 1].toolCalls;
      history + seq(|calls|, i requires 0 <= i < |calls| => Message(Tool, Retrieve(calls[i].query, search).0, []))
  }

  /** Where the run of tool messages that ends at position `n` starts. */
  function RunStart(history: seq<Message>, n: nat): (i: nat)
    requires n <= |history|
    ensures i <= n
    ensures forall k :: i <= k < n ==> history[k].kind == Tool
    ensures i > 0 ==> history[i - 1].kind != Tool
  {
    if n == 0 || history[n - 1].kind != Tool then n else RunStart(history, n - 1)
  }

  /** The trailing run of tool messages, in history order. */
  function TrailingTools(history: seq<Message>): (r: seq<Message>)
  {
    history[RunStart(history, |history|)..]
  }

  /** The trailing run is the longest suffix made of tool messages: any
      suffix of tool messages preceded by a non-tool message is it. */
  lemma TrailingToolsFrom(history: seq<Message>, i: nat)
    requires i <= |history|
    requires forall k :: i <= k < |history| ==> history[k].kind == Tool
    requires i > 0 ==> history[i - 1].kind != Tool
    ensures TrailingTools(history) == history[i..]
  {
    var j := RunStart(history, |history|);
    assert j == i;
  }

  /** The loop at the start of `generate`: walk the history backwards while
      the messages are tool messages, then restore their order. */
  method RecentToolMessages(history: seq<Message>) returns (toolMessages: seq<Message>)
    ensures toolMessages == TrailingTools(history)
  {
    var recent: seq<Message> := [];
    var i := |history|;
    while i > 0 && history[i - 1].kind == Tool
      invariant 0 <= i <= |history|
      invariant |recent| == |history| - i
      invariant forall k :: 0 <= k < |recent| ==> recent[k] == history[|history| - 1 - k]
      invariant forall k :: i <= k < |history| ==> history[k].kind == Tool
    {
      recent := recent + [history[i - 1]];
      i := i - 1;
    }
    toolMessages := seq(|recent|, k requires 0 <= k < |recent| => recent[|recent| - 1 - k]);
    assert toolMessages == history[i..];
    TrailingToolsFrom(history, i);
  }

  /** The messages `generate` passes on: human and system messages, and AI
      messages without tool calls. */
  predicate InConversation(m: Message) {
    m.kind == Human || m.kind == System || (m.kind == Ai && |m.toolCalls| == 0)
  }

  function Contents(messages: seq<Message>): seq<string> {
    seq(|messages|, i requires 0 <= i < |messages| => messages[i].content)
  }

  /** The system message of `generate`: the agent prompt, a full stop, a
      blank line, and the recent tool outputs joined by blank lines. */
  function GroundedPrompt(prompt: string, toolMessages: seq<Message>): (r: string)
    ensures prompt + "." + DocumentSeparator <= r
    ensures |toolMessages| == 0 ==> r == prompt + ".\n\n"
    ensures |toolMessages| == 1 ==> r == prompt + ".\n\n" + toolMessages[0].content
  {
    prompt + "." + DocumentSeparator + Join(DocumentSeparator, Contents(toolMessages))
  }

  /** `generate`: the model sees the grounded system message followed by the
      conversation so far, and its reply is appended. */
  method Generate(prompt: string, history: seq<Message>, llm: seq<Message> -> Message) returns (r: seq<Message>)
    ensures r == history + [llm([SystemMessage(GroundedPrompt(prompt, TrailingTools(history)))]
                                + Filter(history, InConversation))]
  {
    var toolMessages := RecentToolMessages(history);
    var docsContent := Join(DocumentSeparator, Contents(toolMessages));
    var systemContent := prompt + "." + DocumentSeparator + docsContent;
    var conversation := Filter(history, InConversation);
    r := history + [llm([SystemMessage(systemContent)] + conversation)];
  }

  /** The prompt `generate` builds holds no tool message and no tool-calling
      AI message, and keeps every other message in history order. */
  lemma GeneratePromptExcludesTools(history: seq<Message>)
    ensures var conversation := Filter(history, InConversation);
            && (forall i :: 0 <= i < |conversation| ==> conversation[i].kind != Tool && !HasToolCalls(conversation[i]))
            && (forall k :: 0 <= k < |history| && InConversation(history[k]) ==> history[k] in conversation)
            && IsSubsequence(conversation, history)
  {
  }

  /** Right after the tool node, the grounding of `generate` is exactly the
      tool output of this turn: the tool-calling AI message ends the run. */
  lemma GroundingIsThisTurn(history: seq<Message>, search: (string, nat) -> seq<string>)
    requires |history| > 0 && HasToolCalls(history[|history| - 1])
    ensures var after := RunTools(history, search);
            TrailingTools(after) == after[|history|..]
            && |TrailingTools(after)| == |history[|history| - 1].toolCalls|
  {
    var after := RunTools(history, search);
    TrailingToolsFrom(after, |history|);
  }

  datatype Node = QueryOrRespondNode | ToolsNode | GenerateNode | End

  /** The graph's edges: `tools_condition` after `query_or_respond`, then
      `tools` to `generate`, and `generate` to the end. */
  function Next(node: Node, history: seq<Message>): (n: Node)
    ensures node == QueryOrRespondNode ==>
              (n == ToolsNode <==> |history| > 0 && HasToolCalls(history[|history| - 1]))
    ensures node == QueryOrRespondNode && n != ToolsNode ==> n == End
    ensures node == ToolsNode ==> n == GenerateNode
    ensures node == GenerateNode || node == End ==> n == End
    ensures node != End ==> Rank(n) < Rank(node)
  {
    match node
    case QueryOrRespondNode =>
      if |history| > 0 && HasToolCalls(history[|history| - 1]) then ToolsNode else End
    case ToolsNode => GenerateNode
    case GenerateNode => End
    case End => End
  }

  function Rank(node: Node): nat {
    match node
    case QueryOrRespondNode => 3
    case ToolsNode => 2
    case GenerateNode => 1
    case End => 0
  }

  /** What one node does to the history. */
  method Step(prompt: string, node: Node, history: seq<Message>, llmWithTools: seq<Message> -> Message,
              llm: seq<Message> -> Message, search: (string, nat) -> seq<string>)
    returns (r: seq<Message>)
    requires node != End
    ensures history <= r
    ensures node == QueryOrRespondNode ==> r == QueryOrRespond(prompt, history, llmWithTools)
    ensures node == ToolsNode ==> r == RunTools(history, search)
    ensures node == GenerateNode ==>
              r == history + [llm([SystemMessage(GroundedPrompt(prompt, TrailingTools(history)))]
                                  + Filter(history, InConversation))]
  {
    if node == QueryOrRespondNode {
      r := QueryOrRespond(prompt, history, llmWithTools);
    } else if node == ToolsNode {
      r := RunTools(history, search);
    } else {
      r := Generate(prompt, history, llm);
    }
  }

  /** One invocation of the compiled graph from the entry point.  The
      history only grows.  A reply without tool calls ends the run.  A
      tool-calling reply is followed by one tool message per call, and then
      by the plain model's answer, grounded in exactly those tool
      messages. */
  method Run(prompt: string, history: seq<Message>, llmWithTools: seq<Message> -> Message,
             llm: seq<Message> -> Message, search: (string, nat) -> seq<string>)
    returns (r: seq<Message>, steps: nat)
    ensures |r| > |history| && r[..|history|] == history
    ensures var reply := llmWithTools([SystemMessage(prompt)] + history);
            && r[|history|] == reply
            && (!HasToolCalls(reply) ==> steps == 1 && r == history + [reply])
            && (HasToolCalls(reply) ==>
                  var afterTools := RunTools(history + [reply], search);
                  && steps == 3 && |r| == |history| + 2 + |reply.toolCalls|
                  && r[..|afterTools|] == afterTools
                  && r[|r| - 1] == llm([SystemMessage(GroundedPrompt(prompt, afterTools[|history| + 1..]))]
                                       + Filter(afterTools, InConversation)))
  {
    var reply := llmWithTools([SystemMessage(prompt)] + history);
    var afterTools := RunTools(history + [reply], search);
    var answer := llm([SystemMessage(GroundedPrompt(prompt, afterTools[|history| + 1..]))]
                      + Filter(afterTools, InConversation));
    if HasToolCalls(reply) {
      GroundingIsThisTurn(history + [reply], search);
      assert |afterTools| == |history| + 1 + |reply.toolCalls|;
    }
    var node := QueryOrRespondNode;
    r := history;
    steps := 0;
    while node != End
      invariant history <= r
      invariant node == QueryOrRespondNode <==> steps == 0
      invariant steps == 0 ==> r == history
      invariant node == ToolsNode ==> steps == 1 && r == history + [reply] && HasToolCalls(reply)
      invariant node == GenerateNode ==> steps == 2 && r == afterTools && HasToolCalls(reply)
      invariant node == End ==> (HasToolCalls(reply) ==> steps == 3 && r == afterTools + [answer])
                                && (!HasToolCalls(reply) ==> steps == 1 && r == history + [reply])
      decreases Rank(node)
    {
      var current := node;
      r := Step(prompt, node, r, llmWithTools, llm, search);
      node := Next(current, r);
      steps := steps + 1;
    }
    if HasToolCalls(reply) {
      assert r[..|afterTools|] == afterTools;
    }
  }
}
