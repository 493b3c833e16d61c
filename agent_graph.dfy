/** The agent graph of the backend: an `agent` node that asks the language
    model for the next message, a `tools` node that runs the tool calls that
    message asks for, and the routing rule between them.

    The language model is an oracle: the sequence of replies it gives, one
    per visit of the agent node.  The tool node is a function from a tool call
    to the text of its result (the tool node turns a tool's failure into such
    a text as well).  The message reducer appends. */
module AgentGraph {

  /** One structured tool invocation carried by a model reply. */
  datatype ToolCall = ToolCall(name: string, args: string, id: string)

  /** The message kinds the graph state holds. */
  datatype Message =
    | Human(content: string)
    | AI(content: string, toolCalls: seq<ToolCall>)
    | Tool(content: string, toolCallId: string)

  /** What the language model answers on one call. */
  datatype Reply = Reply(content: string, toolCalls: seq<ToolCall>)

  function AsMessage(r: Reply): Message {
    AI(r.content, r.toolCalls)
  }

  /** The two labels `should_continue` can return. */
  datatype Route = ToTools | ToEnd

  /** The nodes of the compiled graph; `End` is LangGraph's `END`. */
  datatype Node = Agent | Tools | End

  /** The edge out of `START`. */
  const Entry: Node := Agent

  /** The edges the graph is built with: agent to tools, agent to the end,
      tools back to agent. */
  predicate Edge(from: Node, to: Node) {
    || (from == Agent && to == Tools)
    || (from == Agent && to == End)
    || (from == Tools && to == Agent)
  }

  /** `should_continue`: route to the tools when the last message carries a
      non-empty list of tool calls, otherwise end.  Only model replies have a
      `tool_calls` attribute.  An empty state has no last message; the graph
      only asks after the agent has appended one. */
  function ShouldContinue(messages: seq<Message>): (r: Route)
    requires |messages| > 0
    ensures r == ToTools <==> messages[|messages| - 1].AI? && messages[|messages| - 1].toolCalls != []
  {
    var last := messages[|messages| - 1];
    if last.AI? && last.toolCalls != [] then ToTools else ToEnd
  }

  /** The routing decision depends on the last message only. */
  lemma RoutingReadsOnlyLast(a: seq<Message>, b: seq<Message>, m: Message)
    ensures ShouldContinue(a + [m]) == ShouldContinue(b + [m])
  {
  }

  /** The node the graph moves to after `node` has run on `messages`. */
  function Successor(node: Node, messages: seq<Message>): (next: Node)
    requires node != End
    requires node == Agent ==> |messages| > 0
    ensures Edge(node, next)
    ensures node == Tools ==> next == Agent
    ensures node == Agent ==> (next == End <==> ShouldContinue(messages) == ToEnd)
  {
    match node
    case Agent => (match ShouldContinue(messages) case ToTools => Tools case ToEnd => End)
    case Tools => Agent
  }

  /** The messages the tool node appends: one tool message per call, in the
      order of the calls, each answering its call's id. */
  function ToolMessages(calls: seq<ToolCall>, execute: ToolCall -> string): seq<Message> {
    seq(|calls|, i requires 0 <= i < |calls| => Tool(execute(calls[i]), calls[i].id))
  }

  /** What one agent visit and the tool visit after it add to the state. */
  function Round(r: Reply, execute: ToolCall -> string): (m: seq<Message>)
    ensures |m| == 1 + |r.toolCalls|
    ensures m[0] == AsMessage(r)
    ensures forall i :: 0 <= i < |r.toolCalls| ==>
      m[1 + i].Tool? && m[1 + i].toolCallId == r.toolCalls[i].id && m[1 + i].content == execute(r.toolCalls[i])
  {
    [AsMessage(r)] + ToolMessages(r.toolCalls, execute)
  }

  function Rounds(rs: seq<Reply>, execute: ToolCall -> string): seq<Message>
    decreases |rs|
  {
    if rs == [] then [] else Rounds(rs[..|rs| - 1], execute) + Round(rs[|rs| - 1], execute)
  }

  /** Whether some reply of the oracle carries no tool call. */
  predicate Finishes(replies: seq<Reply>) {
    exists i :: 0 <= i < |replies| && replies[i].toolCalls == []
  }

  /** How many replies a run consumes: up to and including the first reply
      without tool calls, or all of them when there is none. */
  function StepsUsed(replies: seq<Reply>): (n: nat)
    ensures n <= |replies|
    ensures forall i :: 0 <= i < n - 1 ==> replies[i].toolCalls != []
    ensures Finishes(replies) ==> 1 <= n && replies[n - 1].toolCalls == []
    ensures !Finishes(replies) ==> n == |replies|
  {
    if replies == [] then 0
    else if replies[0].toolCalls == [] then 1
    else
      var n := 1 + StepsUsed(replies[1..]);
      assert Finishes(replies) ==> Finishes(replies[1..]) by {
        if Finishes(replies) {
          var i :| 0 <= i < |replies| && replies[i].toolCalls == [];
          assert replies[1..][i - 1].toolCalls == [];
        }
      }
      n
  }

  /** `n` agent-to-tools-to-agent hops. */
  function Hops(n: nat): seq<Node> {
    if n == 0 then [] else Hops(n - 1) + [Tools, Agent]
  }

  /** The nodes a run visits: the entry, `hops` round trips through the tool
      node and, when the run ends, `End`. */
  function Walk(hops: nat, finished: bool): seq<Node> {
    [Entry] + Hops(hops) + (if finished then [End] else [])
  }

  lemma {:induction false} HopsShape(n: nat)
    ensures |Hops(n)| == 2 * n
    ensures forall i :: 0 <= i < 2 * n ==> Hops(n)[i] == if i % 2 == 0 then Tools else Agent
  {
    if n > 0 {
      HopsShape(n - 1);
    }
  }

  /** Every walk a run produces is a path of the graph that starts at the
      agent; `End` is last when present and is entered from the agent. */
  lemma WalkFollowsGraph(hops: nat, finished: bool)
    ensures Walk(hops, finished)[0] == Agent
    ensures forall i :: 0 <= i < |Walk(hops, finished)| - 1 ==>
      Edge(Walk(hops, finished)[i], Walk(hops, finished)[i + 1])
    ensures forall i :: 0 <= i < |Walk(hops, finished)| - 1 ==> Walk(hops, finished)[i] != End
    ensures finished ==>
      |Walk(hops, finished)| >= 2 && Walk(hops, finished)[|Walk(hops, finished)| - 2] == Agent
  {
    HopsShape(hops);
    var w := Walk(hops, finished);
    assert |w| == 1 + 2 * hops + (if finished then 1 else 0);
    forall i | 1 <= i <= 2 * hops
      ensures w[i] == if i % 2 == 1 then Tools else Agent
    {
      assert w[i] == Hops(hops)[i - 1];
    }
  }

  /** The run's state when control is at the agent after `used` replies:
      every reply so far called tools, and each round is in the state. */
  ghost predicate AtAgent(base: seq<Message>, replies: seq<Reply>, execute: ToolCall -> string,
                          messages: seq<Message>, trace: seq<Node>, used: nat)
  {
    && used <= |replies|
    && messages == base + Rounds(replies[..used], execute)
    && (forall i :: 0 <= i < used ==> replies[i].toolCalls != [])
    && trace == Walk(used, false)
  }

  /** The run's state when control is at the tool node: the last reply,
      which called tools, has been appended but not yet answered. */
  ghost predicate AtTools(base: seq<Message>, replies: seq<Reply>, execute: ToolCall -> string,
                          messages: seq<Message>, trace: seq<Node>, used: nat)
  {
    && 1 <= used <= |replies|
    && messages == base + Rounds(replies[..used - 1], execute) + [AsMessage(replies[used - 1])]
    && (forall i :: 0 <= i < used ==> replies[i].toolCalls != [])
    && trace == Walk(used - 1, false) + [Tools]
  }

  /** The run's state at `END`: the last reply was the first without tool
      calls. */
  ghost predicate AtEnd(base: seq<Message>, replies: seq<Reply>, execute: ToolCall -> string,
                        messages: seq<Message>, trace: seq<Node>, used: nat)
  {
    && 1 <= used <= |replies|
    && messages == base + Rounds(replies[..used], execute)
    && (forall i :: 0 <= i < used - 1 ==> replies[i].toolCalls != [])
    && replies[used - 1].toolCalls == []
    && trace == Walk(used - 1, true)
  }

  /** An agent step appends the next reply; routing then takes the run to
      the tool node or to `END`. */
  lemma AgentStep(base: seq<Message>, replies: seq<Reply>, execute: ToolCall -> string,
                  messages: seq<Message>, trace: seq<Node>, used: nat)
    requires AtAgent(base, replies, execute, messages, trace, used) && used < |replies|
    ensures var m := messages + [AsMessage(replies[used])];
      && (ShouldContinue(m) == ToTools ==> AtTools(base, replies, execute, m, trace + [Tools], used + 1))
      && (ShouldContinue(m) == ToEnd ==> AtEnd(base, replies, execute, m, trace + [End], used + 1))
  {
    var r := replies[used];
    assert replies[..used + 1] == replies[..used] + [r];
    assert replies[..used + 1][..used] == replies[..used];
    WalkSteps(used);
    if r.toolCalls == [] {
      RoundsSnoc(replies[..used], r, execute);
    }
  }

  /** A tool step answers the calls of the last reply; control is back at
      the agent with one more round complete. */
  lemma ToolStep(base: seq<Message>, replies: seq<Reply>, execute: ToolCall -> string,
                 messages: seq<Message>, trace: seq<Node>, used: nat)
    requires AtTools(base, replies, execute, messages, trace, used)
    ensures |messages| > 0 && messages[|messages| - 1] == AsMessage(replies[used - 1])
    ensures AtAgent(base, replies, execute, messages + ToolMessages(replies[used - 1].toolCalls, execute), trace + [Agent], used)
  {
    var r := replies[used - 1];
    assert replies[..used] == replies[..used - 1] + [r];
    RoundsSnoc(replies[..used - 1], r, execute);
    WalkSteps(used - 1);
  }

  /** At `END` the run has consumed exactly the replies `StepsUsed` counts,
      and its last message is the reply that ended it. */
  lemma EndReached(base: seq<Message>, replies: seq<Reply>, execute: ToolCall -> string,
                   messages: seq<Message>, trace: seq<Node>, used: nat)
    requires AtEnd(base, replies, execute, messages, trace, used)
    ensures used == StepsUsed(replies) && Finishes(replies)
    ensures |messages| > 0 && messages[|messages| - 1] == AsMessage(replies[used - 1])
    ensures ShouldContinue(messages) == ToEnd
  {
    FirstPlainReply(replies, used - 1);
    var r := replies[used - 1];
    assert replies[..used] == replies[..used - 1] + [r];
    RoundsSnoc(replies[..used - 1], r, execute);
  }

  /** The run's steps: the state is the stored history plus the new input,
      then the graph loops until `should_continue` says "end" or the oracle
      has no reply left. */
  method RunGraph(state: seq<Message>, input: seq<Message>, replies: seq<Reply>, execute: ToolCall -> string)
    returns (messages: seq<Message>, trace: seq<Node>, used: nat, finished: bool)
    ensures used == StepsUsed(replies)
    ensures finished == Finishes(replies)
    ensures messages == state + input + Rounds(replies[..used], execute)
    ensures trace == Walk(if finished then used - 1 else used, finished)
    ensures finished ==>
      |messages| > 0 && ShouldContinue(messages) == ToEnd && messages[|messages| - 1] == AsMessage(replies[used - 1])
  {
    messages := state + input;
    ghost var base := messages;
    var node := Entry;
    trace := [node];
    used := 0;
    assert replies[..0] == [];
    while node != End && !(node == Agent && used == |replies|)
      invariant used <= |replies|
      invariant node == Agent ==> AtAgent(base, replies, execute, messages, trace, used)
      invariant node == Tools ==> AtTools(base, replies, execute, messages, trace, used)
      invariant node == End ==> AtEnd(base, replies, execute, messages, trace, used)
      decreases |replies| - used, if node == Tools then 1 else 0
    {
      if node == Agent {
        AgentStep(base, replies, execute, messages, trace, used);
        messages := messages + [AsMessage(replies[used])];
        used := used + 1;
        node := Successor(Agent, messages);
      } else {
        ToolStep(base, replies, execute, messages, trace, used);
        var last := messages[|messages| - 1];
        messages := messages + ToolMessages(last.toolCalls, execute);
        node := Agent;
      }
      trace := trace + [node];
    }
    finished := node == End;
    if finished {
      EndReached(base, replies, execute, messages, trace, used);
    } else {
      NoPlainReply(replies);
    }
  }

  /** Appending a reply appends its round. */
  lemma RoundsSnoc(rs: seq<Reply>, r: Reply, execute: ToolCall -> string)
    ensures Rounds(rs + [r], execute) == Rounds(rs, execute) + [AsMessage(r)] + ToolMessages(r.toolCalls, execute)
    ensures r.toolCalls == [] ==> Rounds(rs + [r], execute) == Rounds(rs, execute) + [AsMessage(r)]
  {
    assert (rs + [r])[..|rs|] == rs;
  }

  /** A walk grows by a round trip, or by `End`. */
  lemma WalkSteps(n: nat)
    ensures Walk(n, false) + [Tools] + [Agent] == Walk(n + 1, false)
    ensures Walk(n, false) + [End] == Walk(n, true)
  {
  }

  /** A run that meets a reply without tool calls at `k`, every earlier reply
      calling tools, consumes `k + 1` replies and finishes. */
  lemma FirstPlainReply(replies: seq<Reply>, k: nat)
    requires k < |replies| && replies[k].toolCalls == []
    requires forall i :: 0 <= i < k ==> replies[i].toolCalls != []
    ensures Finishes(replies) && StepsUsed(replies) == k + 1
  {
    var n := StepsUsed(replies);
    assert replies[k].toolCalls == [];
    assert replies[n - 1].toolCalls == [];
  }

  /** A run in which every reply calls tools consumes all of them. */
  lemma NoPlainReply(replies: seq<Reply>)
    requires forall i :: 0 <= i < |replies| ==> replies[i].toolCalls != []
    ensures !Finishes(replies) && StepsUsed(replies) == |replies|
  {
  }

  /** Number of model replies in a message sequence. */
  function CountReplies(ms: seq<Message>): nat
    decreases |ms|
  {
    if ms == [] then 0 else CountReplies(ms[..|ms| - 1]) + (if ms[|ms| - 1].AI? then 1 else 0)
  }

  /** Number of model replies without tool calls in a message sequence. */
  function CountPlainReplies(ms: seq<Message>): nat
    decreases |ms|
  {
    if ms == [] then 0
    else CountPlainReplies(ms[..|ms| - 1]) + (if ms[|ms| - 1].AI? && ms[|ms| - 1].toolCalls == [] then 1 else 0)
  }

  lemma {:induction false} CountsDistribute(a: seq<Message>, b: seq<Message>)
    ensures CountReplies(a + b) == CountReplies(a) + CountReplies(b)
    ensures CountPlainReplies(a + b) == CountPlainReplies(a) + CountPlainReplies(b)
    decreases |b|
  {
    if b == [] {
      assert a + b == a;
    } else {
      assert (a + b)[..|a + b| - 1] == a + b[..|b| - 1];
      CountsDistribute(a, b[..|b| - 1]);
    }
  }

  lemma {:induction false} ToolMessagesHoldNoReply(calls: seq<ToolCall>, execute: ToolCall -> string)
    ensures CountReplies(ToolMessages(calls, execute)) == 0
    ensures CountPlainReplies(ToolMessages(calls, execute)) == 0
    decreases |calls|
  {
    if calls != [] {
      var ms := ToolMessages(calls, execute);
      assert ms[..|ms| - 1] == ToolMessages(calls[..|calls| - 1], execute);
      ToolMessagesHoldNoReply(calls[..|calls| - 1], execute);
    }
  }

  lemma RoundCounts(r: Reply, execute: ToolCall -> string)
    ensures CountReplies(Round(r, execute)) == 1
    ensures CountPlainReplies(Round(r, execute)) == if r.toolCalls == [] then 1 else 0
  {
    CountsDistribute([AsMessage(r)], ToolMessages(r.toolCalls, execute));
    ToolMessagesHoldNoReply(r.toolCalls, execute);
    assert [AsMessage(r)][..0] == [];
  }

  /** Each agent step contributes exactly one model reply, and the replies
      without tool calls in the rounds are those of the consumed replies. */
  lemma {:induction false} RoundsCounts(rs: seq<Reply>, execute: ToolCall -> string)
    ensures CountReplies(Rounds(rs, execute)) == |rs|
    ensures (forall i :: 0 <= i < |rs| ==> rs[i].toolCalls != []) ==> CountPlainReplies(Rounds(rs, execute)) == 0
    decreases |rs|
  {
    if rs != [] {
      var front := rs[..|rs| - 1];
      RoundsCounts(front, execute);
      CountsDistribute(Rounds(front, execute), Round(rs[|rs| - 1], execute));
      RoundCounts(rs[|rs| - 1], execute);
    }
  }

  /** A finished turn appends exactly one reply without tool calls, as its
      last message, and one reply per agent step in all. */
  lemma FinishedTurnShape(state: seq<Message>, input: seq<Message>, replies: seq<Reply>, execute: ToolCall -> string)
    requires Finishes(replies)
    ensures var n := StepsUsed(replies);
      var added := Rounds(replies[..n], execute);
      && CountReplies(added) == n
      && CountPlainReplies(added) == 1
      && added[|added| - 1] == AsMessage(replies[n - 1])
  {
    var n := StepsUsed(replies);
    var rs := replies[..n];
    RoundsCounts(rs, execute);
    var front := rs[..n - 1];
    assert forall i :: 0 <= i < |front| ==> front[i].toolCalls != [];
    RoundsCounts(front, execute);
    CountsDistribute(Rounds(front, execute), Round(rs[n - 1], execute));
    RoundCounts(rs[n - 1], execute);
  }

  /** Every tool message answers a tool call of an earlier model reply. */
  ghost predicate RepliesAnswerEarlierCalls(ms: seq<Message>) {
    forall k :: 0 <= k < |ms| && ms[k].Tool? ==>
      exists j, c :: 0 <= j < k && ms[j].AI? && 0 <= c < |ms[j].toolCalls| && ms[j].toolCalls[c].id == ms[k].toolCallId
  }

  lemma {:induction false} RoundsAnswerEarlierCalls(rs: seq<Reply>, execute: ToolCall -> string)
    ensures RepliesAnswerEarlierCalls(Rounds(rs, execute))
    decreases |rs|
  {
    if rs != [] {
      var front := Rounds(rs[..|rs| - 1], execute);
      var r := rs[|rs| - 1];
      var last := Round(r, execute);
      var ms := front + last;
      RoundsAnswerEarlierCalls(rs[..|rs| - 1], execute);
      forall k | 0 <= k < |ms| && ms[k].Tool?
        ensures exists j, c :: 0 <= j < k && ms[j].AI? && 0 <= c < |ms[j].toolCalls| && ms[j].toolCalls[c].id == ms[k].toolCallId
      {
        if k < |front| {
          assert front[k] == ms[k];
          var j, c :| 0 <= j < k && front[j].AI? && 0 <= c < |front[j].toolCalls| && front[j].toolCalls[c].id == front[k].toolCallId;
          assert ms[j] == front[j];
        } else {
          var c := k - |front| - 1;
          assert ms[k] == last[k - |front|];
          assert k - |front| != 0;
          assert ms[|front|] == AsMessage(r);
          assert ms[|front|].toolCalls[c].id == ms[k].toolCallId;
        }
      }
    }
  }
}
