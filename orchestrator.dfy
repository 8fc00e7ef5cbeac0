/**
 * The four-stage agent pipeline: Analyst, Expert, Critic and Consolidator run
 * strictly one after another, each stage's text is threaded into the next
 * stage's input, every failed or timed-out stage is replaced by a fallback
 * text, and the run ends with the Consolidator's answer plus a markdown trace
 * of the first three stages.
 *
 * The language model is an oracle `complete` from the request it is sent to
 * the outcome of racing that request against the stage timer: the model's
 * content, or the message of the error that ended the race.
 */
module Orchestrator {
  import opened Strings
  import opened UIMessages
  import opened Agents

  /** Default timeout for one stage, in milliseconds. */
  const DefaultAgentTimeout: nat := 20000

  /** The sampling temperature every stage is called with. */
  const Temperature: real := 0.2

  /** The tools offered to the model, by name. */
  type Toolset = seq<string>

  /** What one stage sends to the model: the system and user messages and the tools. */
  datatype ModelRequest = ModelRequest(
    system: string,
    user: string,
    tools: Option<Toolset>,
    temperature: real)

  /** How the race between the model call and the stage timer ended. */
  datatype ModelOutcome = Completed(content: string) | Rejected(message: string)

  datatype AgentOutput = AgentOutput(agentId: string, content: string)

  datatype SwarmOutput = SwarmOutput(responseText: string, reasoningMarkdown: string)

  /** The two ways the pipeline refuses its input before any stage runs. */
  datatype SwarmError = MissingMessages | LastMessageNotFromUser

  datatype Result<T> = Ok(value: T) | Err(error: SwarmError)

  /** The message of the error thrown for each refusal. */
  function ErrorMessage(e: SwarmError): string
  {
    match e
    case MissingMessages => "Messages array is required and must not be empty"
    case LastMessageNotFromUser => "Last message must be from the user"
  }

  /** The two refusals throw different, non-empty messages, so a caller can tell them apart. */
  lemma ErrorMessagesDistinct(e1: SwarmError, e2: SwarmError)
    ensures ErrorMessage(e1) != ""
    ensures e1 != e2 ==> ErrorMessage(e1) != ErrorMessage(e2)
  {
    assert |ErrorMessage(MissingMessages)| != |ErrorMessage(LastMessageNotFromUser)|;
  }

  // ------------------------------------------------------- message content

  /** The text one element of an array content contributes. */
  function PartText(p: Part): string
  {
    match p
    case StringPart(s) => s
    case TypedPart(kind, text) => if kind == "text" then text else "[" + kind + " content]"
  }

  function PartTexts(parts: seq<Part>): (r: seq<string>)
    ensures |r| == |parts|
    ensures forall i :: 0 <= i < |parts| ==> r[i] == PartText(parts[i])
    decreases |parts|
  {
    if |parts| == 0 then [] else [PartText(parts[0])] + PartTexts(parts[1..])
  }

  /** The content of a message as one string. */
  function GetMessageContent(m: Message): (r: string)
    ensures m.content.Text? ==> r == m.content.s
    ensures m.content.Other? ==> r == m.content.serialized
  {
    match m.content
    case Text(s) => s
    case Parts(parts) => Join(" ", PartTexts(parts))
    case Other(serialized) => serialized
  }

  /**
   * Array content: one part gives its own text, and each further part adds a
   * single space and its text; text parts give their text and other parts a
   * `[type content]` placeholder.
   */
  lemma {:induction false} PartsContent(role: Role, parts: seq<Part>, p: Part, reasoning: Option<string>)
    ensures GetMessageContent(Message(role, Parts([]), reasoning)) == ""
    ensures GetMessageContent(Message(role, Parts([p]), reasoning)) == PartText(p)
    ensures |parts| > 0 ==>
      GetMessageContent(Message(role, Parts(parts + [p]), reasoning))
      == GetMessageContent(Message(role, Parts(parts), reasoning)) + " " + PartText(p)
    ensures p.StringPart? ==> PartText(p) == p.s
    ensures p.TypedPart? && p.kind == "text" ==> PartText(p) == p.text
    ensures p.TypedPart? && p.kind != "text" ==> PartText(p) == "[" + p.kind + " content]"
  {
    if |parts| > 0 {
      assert PartTexts(parts + [p]) == PartTexts(parts) + [PartText(p)];
      JoinAppend(" ", PartTexts(parts), PartText(p));
    }
  }

  /** Joining one more part appends the separator and that part. */
  lemma {:induction false} JoinAppend(sep: string, parts: seq<string>, x: string)
    requires |parts| > 0
    ensures Join(sep, parts + [x]) == Join(sep, parts) + sep + x
    decreases |parts|
  {
    if |parts| > 1 {
      assert (parts + [x])[1..] == parts[1..] + [x];
      JoinAppend(sep, parts[1..], x);
    } else {
      assert (parts + [x])[1..] == [x];
    }
  }

  // ----------------------------------------------------- conversation history

  /** One prior message of the transcript, labelled by its author. */
  function RenderTurn(m: Message): string
  {
    (if m.role == User then "Usuário" else "Assistente") + ": " + GetMessageContent(m)
  }

  function RenderTurns(ms: seq<Message>): (r: seq<string>)
    ensures |r| == |ms|
    ensures forall i :: 0 <= i < |ms| ==> r[i] == RenderTurn(ms[i])
    decreases |ms|
  {
    if |ms| == 0 then [] else [RenderTurn(ms[0])] + RenderTurns(ms[1..])
  }

  /** The transcript of the messages before the current one. */
  function ConversationHistory(prior: seq<Message>): string
  {
    Join("\n\n", RenderTurns(prior))
  }

  /** The Analyst's input: the question, preceded by the transcript when there is one. */
  function UserInput(conversationHistory: string, userContent: string): string
  {
    if conversationHistory != "" then
      "Contexto da conversa anterior:\n" + conversationHistory
      + "\n\nPergunta atual do usuário:\n" + userContent
    else userContent
  }

  /**
   * The Analyst sees the bare question exactly when there is no earlier
   * message; otherwise it sees the transcript, whose first entry is the
   * labelled first earlier message.
   */
  lemma UserInputWithoutHistory(prior: seq<Message>, userContent: string)
    ensures UserInput(ConversationHistory(prior), userContent) == userContent <==> |prior| == 0
    ensures |prior| > 0 ==> ConversationHistory(prior)[..|RenderTurn(prior[0])|] == RenderTurn(prior[0])
  {
    if |prior| > 0 {
      var turns := RenderTurns(prior);
      JoinFirst("\n\n", turns);
      assert |turns[0]| > 0;
      assert ConversationHistory(prior) != "";
      assert |UserInput(ConversationHistory(prior), userContent)| > |userContent|;
    }
  }

  // ------------------------------------------------------------ stage calls

  /** The request a stage sends: the agent's system prompt with the context appended. */
  function AgentRequest(agent: Agent, prompt: string, userContent: string, tools: Option<Toolset>): (r: ModelRequest)
    ensures r.system == agent.systemPrompt + "\n\n" + prompt
    ensures r.user == userContent
    ensures r.tools.Some? <==> agent.usesTool && tools.Some?
    ensures r.tools.Some? ==> r.tools == tools
  {
    ModelRequest(
      agent.systemPrompt + "\n\n" + prompt,
      userContent,
      if agent.usesTool && tools.Some? then tools else None,
      Temperature)
  }

  /** Of the four agents, only the Consolidator ever gets tools handed to the model. */
  lemma ToolsOnlyForConsolidator(i: int, prompt: string, userContent: string, tools: Option<Toolset>)
    requires 0 <= i < |AllAgents|
    ensures AgentRequest(AllAgents[i], prompt, userContent, tools).tools.Some?
      <==> AllAgents[i] == Consolidator && tools.Some?
  {
    OnlyConsolidatorUsesTools();
  }

  /** The message of the rejection raised by the stage timer. */
  function TimeoutError(agent: Agent): string
  {
    "Agent " + agent.name + " timed out after " + NatToString(DefaultAgentTimeout) + "ms"
  }

  function TimeoutFallback(name: string): string
  {
    "O agente " + name + " não conseguiu responder no tempo esperado. Continuando com as informações disponíveis."
  }

  function GenericFallback(name: string): string
  {
    "Não foi possível obter uma resposta completa do agente " + name + ". Continuando com informações limitadas."
  }

  /** One stage: the model's content, or a fallback text when the call was rejected. */
  function ExecuteAgent(
    complete: ModelRequest -> ModelOutcome,
    agent: Agent, prompt: string, userContent: string, tools: Option<Toolset>): string
  {
    match complete(AgentRequest(agent, prompt, userContent, tools))
    case Completed(content) => content
    case Rejected(message) =>
      if Includes(message, "timed out") then TimeoutFallback(agent.name) else GenericFallback(agent.name)
  }

  /** The two fallback texts differ, and each names the agent. */
  lemma FallbacksNameAgent(name: string)
    ensures TimeoutFallback(name) != GenericFallback(name)
    ensures Includes(TimeoutFallback(name), name)
    ensures Includes(GenericFallback(name), name)
  {
    assert |TimeoutFallback(name)| == |name| + 96;
    assert |GenericFallback(name)| == |name| + 95;
    var t := "O agente ";
    OccursInMiddle(t, name,
      " não conseguiu responder no tempo esperado. Continuando com as informações disponíveis.");
    IncludesAt(TimeoutFallback(name), name, |t|);
    var g := "Não foi possível obter uma resposta completa do agente ";
    OccursInMiddle(g, name, ". Continuando com informações limitadas.");
    IncludesAt(GenericFallback(name), name, |g|);
  }

  /**
   * A stage never fails: it yields the model's content when the call
   * completes first; otherwise a fallback text that names the agent, the
   * timeout text exactly when the error message mentions "timed out" and the
   * generic text exactly when it does not.
   */
  lemma ExecuteAgentNeverFails(
    complete: ModelRequest -> ModelOutcome,
    agent: Agent, prompt: string, userContent: string, tools: Option<Toolset>)
    ensures var outcome := complete(AgentRequest(agent, prompt, userContent, tools));
      var r := ExecuteAgent(complete, agent, prompt, userContent, tools);
      && (outcome.Completed? ==> r == outcome.content)
      && (outcome.Rejected? ==> Includes(r, agent.name))
      && (outcome.Rejected? ==> (r == TimeoutFallback(agent.name) <==> Includes(outcome.message, "timed out")))
      && (outcome.Rejected? ==> (r == GenericFallback(agent.name) <==> !Includes(outcome.message, "timed out")))
  {
    FallbacksNameAgent(agent.name);
  }

  /** A stage whose timer fires first is reported with the timeout text. */
  lemma TimeoutReportedAsTimeout(
    complete: ModelRequest -> ModelOutcome,
    agent: Agent, prompt: string, userContent: string, tools: Option<Toolset>)
    requires complete(AgentRequest(agent, prompt, userContent, tools)) == Rejected(TimeoutError(agent))
    ensures ExecuteAgent(complete, agent, prompt, userContent, tools) == TimeoutFallback(agent.name)
  {
    TimeoutErrorSaysTimedOut(agent);
  }

  /** The timer's rejection message mentions "timed out". */
  lemma TimeoutErrorSaysTimedOut(agent: Agent)
    ensures Includes(TimeoutError(agent), "timed out")
  {
    var u := "Agent " + agent.name;
    var m := " timed out after ";
    var d := NatToString(DefaultAgentTimeout);
    assert m[1..10] == "timed out";
    OccursPrepended("timed out", m, 1, u);
    OccursExtended("timed out", u + m, |u| + 1, d);
    OccursExtended("timed out", u + m + d, |u| + 1, "ms");
    IncludesAt(TimeoutError(agent), "timed out", |u| + 1);
  }

  /** An occurrence moves along with the text it is in when text is prepended. */
  lemma OccursPrepended(x: string, s: string, i: int, p: string)
    requires OccursAt(x, s, i)
    ensures OccursAt(x, p + s, |p| + i)
  {
    assert (p + s)[|p| + i..|p| + i + |x|] == s[i..i + |x|];
  }

  // ------------------------------------------------------------ stage inputs

  const QuestionLabel: string := "Pergunta do usuário:\n"
  const AnalysisLabel: string := "\n\nAnálise do problema:\n"
  const ProposalLabel: string := "\n\nResposta proposta pelo Especialista:\n"
  const ExpertAnswerLabel: string := "\n\nResposta do Especialista:\n"
  const CritiqueLabel: string := "\n\nCríticas e sugestões de melhoria:\n"

  function ExpertInput(userContent: string, analysis: string): string
  {
    QuestionLabel + userContent + AnalysisLabel + analysis
  }

  function CriticInput(userContent: string, proposal: string): string
  {
    QuestionLabel + userContent + ProposalLabel + proposal
  }

  function ConsolidatorInput(userContent: string, analysis: string, proposal: string, critique: string): string
  {
    QuestionLabel + userContent + AnalysisLabel + analysis
    + ExpertAnswerLabel + proposal + CritiqueLabel + critique
  }

  /**
   * The instructions on the document, suggestion and weather tools that the
   * Consolidator's context ends with; an opaque constant, like the system prompts.
   */
  const ArtifactsPrompt: string

  /** The Consolidator's context: the location context followed by the tool instructions. */
  function ConsolidatorContext(locationContext: string): string
  {
    locationContext + "\n\n" + ArtifactsPrompt
  }

  /** An occurrence stays where it is when text is appended. */
  lemma OccursExtended(x: string, s: string, i: int, t: string)
    requires OccursAt(x, s, i)
    ensures OccursAt(x, s + t, i)
  {
    assert (s + t)[i..i + |x|] == s[i..i + |x|];
  }

  /** `x` occurs right after `p` in `p + x + t`. */
  lemma OccursAfter(p: string, x: string, t: string)
    ensures OccursAt(x, p + x + t, |p|)
  {
    OccursInMiddle(p, x, "");
    assert p + x + "" == p + x;
    OccursExtended(x, p + x, |p|, t);
  }

  /** The Expert is given the question and the analysis. */
  lemma ExpertInputCarries(userContent: string, analysis: string)
    ensures OccursAt(userContent, ExpertInput(userContent, analysis), |QuestionLabel|)
    ensures OccursAt(analysis, ExpertInput(userContent, analysis), |QuestionLabel + userContent + AnalysisLabel|)
  {
    OccursAfter(QuestionLabel, userContent, AnalysisLabel + analysis);
    assert ExpertInput(userContent, analysis) == QuestionLabel + userContent + (AnalysisLabel + analysis);
    OccursAfter(QuestionLabel + userContent + AnalysisLabel, analysis, "");
    assert ExpertInput(userContent, analysis) == QuestionLabel + userContent + AnalysisLabel + analysis + "";
  }

  /** The Critic is given the question and the Expert's proposal. */
  lemma CriticInputCarries(userContent: string, proposal: string)
    ensures OccursAt(userContent, CriticInput(userContent, proposal), |QuestionLabel|)
    ensures OccursAt(proposal, CriticInput(userContent, proposal), |QuestionLabel + userContent + ProposalLabel|)
  {
    OccursAfter(QuestionLabel, userContent, ProposalLabel + proposal);
    assert CriticInput(userContent, proposal) == QuestionLabel + userContent + (ProposalLabel + proposal);
    OccursAfter(QuestionLabel + userContent + ProposalLabel, proposal, "");
    assert CriticInput(userContent, proposal) == QuestionLabel + userContent + ProposalLabel + proposal + "";
  }

  /**
   * The Consolidator is given the question and the three earlier outputs,
   * one after another in stage order and without overlapping.
   */
  lemma ConsolidatorInputCarries(userContent: string, analysis: string, proposal: string, critique: string)
    ensures var s := ConsolidatorInput(userContent, analysis, proposal, critique);
      var i0 := |QuestionLabel|;
      var i1 := i0 + |userContent| + |AnalysisLabel|;
      var i2 := i1 + |analysis| + |ExpertAnswerLabel|;
      var i3 := i2 + |proposal| + |CritiqueLabel|;
      && OccursAt(userContent, s, i0) && OccursAt(analysis, s, i1)
      && OccursAt(proposal, s, i2) && OccursAt(critique, s, i3)
      && i0 + |userContent| < i1 && i1 + |analysis| < i2 && i2 + |proposal| < i3
  {
    OccursInLabelled(QuestionLabel, userContent, AnalysisLabel, analysis,
      ExpertAnswerLabel, proposal, CritiqueLabel, critique);
  }

  /** Each text of a chain of labelled texts occurs right after its label. */
  lemma OccursInLabelled(l0: string, x0: string, l1: string, x1: string,
                         l2: string, x2: string, l3: string, x3: string)
    ensures var s := l0 + x0 + l1 + x1 + l2 + x2 + l3 + x3;
      var i1 := |l0| + |x0| + |l1|;
      var i2 := i1 + |x1| + |l2|;
      var i3 := i2 + |x2| + |l3|;
      && OccursAt(x0, s, |l0|) && OccursAt(x1, s, i1)
      && OccursAt(x2, s, i2) && OccursAt(x3, s, i3)
  {
    // the chain is built left to right: each text lands at the end of what
    // precedes it, and every occurrence survives the later appends
    var p1 := l0 + x0 + l1;
    var p2 := p1 + x1 + l2;
    var p3 := p2 + x2 + l3;
    OccursAtEnd(l0, x0);
    OccursExtended(x0, l0 + x0, |l0|, l1);
    OccursAtEnd(p1, x1);
    OccursExtended(x0, p1, |l0|, x1);
    OccursExtended(x0, p1 + x1, |l0|, l2);
    OccursExtended(x1, p1 + x1, |p1|, l2);
    OccursAtEnd(p2, x2);
    OccursExtended(x0, p2, |l0|, x2);
    OccursExtended(x1, p2, |p1|, x2);
    OccursExtended(x0, p2 + x2, |l0|, l3);
    OccursExtended(x1, p2 + x2, |p1|, l3);
    OccursExtended(x2, p2 + x2, |p2|, l3);
    OccursAtEnd(p3, x3);
    OccursExtended(x0, p3, |l0|, x3);
    OccursExtended(x1, p3, |p1|, x3);
    OccursExtended(x2, p3, |p2|, x3);
  }

  /** A text occurs at the end of anything it is appended to. */
  lemma OccursAtEnd(p: string, x: string)
    ensures OccursAt(x, p + x, |p|)
  {
    assert (p + x)[|p|..|p| + |x|] == x;
  }

  // --------------------------------------------------------- reasoning trace

  /** `agent?.name` in a template literal: the name, or "undefined" when absent. */
  function NameOrUndefined(a: Option<Agent>): string
  {
    match a
    case Some(agent) => agent.name
    case None => "undefined"
  }

  /** The bold `**name:**` heading of a trace entry, with the space after it. */
  function TraceHeading(name: string): string
  {
    "**" + name + ":** "
  }

  /** One trace entry: the bold agent name followed by the trimmed output. */
  function TraceEntry(output: AgentOutput): string
  {
    TraceHeading(NameOrUndefined(FindById(AllAgents, output.agentId))) + Trim(output.content)
  }

  function TraceEntries(outputs: seq<AgentOutput>): (r: seq<string>)
    ensures |r| == |outputs|
    ensures forall i :: 0 <= i < |outputs| ==> r[i] == TraceEntry(outputs[i])
    decreases |outputs|
  {
    if |outputs| == 0 then [] else [TraceEntry(outputs[0])] + TraceEntries(outputs[1..])
  }

  function ReasoningMarkdown(outputs: seq<AgentOutput>): string
  {
    Join("\n\n", TraceEntries(outputs))
  }

  /** The entry of an output of a known agent names that agent. */
  lemma TraceEntryOfAgent(i: int, content: string)
    requires 0 <= i < |AllAgents|
    ensures TraceEntry(AgentOutput(AllAgents[i].id, content)) == TraceHeading(AllAgents[i].name) + Trim(content)
  {
    FindByIdFindsAgent(i);
  }

  lemma JoinThree(sep: string, parts: seq<string>)
    requires |parts| == 3
    ensures Join(sep, parts) == parts[0] + sep + parts[1] + sep + parts[2]
  {
    assert parts[1..][1..] == [parts[2]];
    assert Join(sep, parts[1..][1..]) == parts[2];
    assert Join(sep, parts[1..]) == parts[1] + sep + parts[2];
    assert Join(sep, parts) == parts[0] + sep + (parts[1] + sep + parts[2]);
  }

  /** The three entries of the reasoning stages' outputs. */
  lemma StageTraceEntries(analysis: string, proposal: string, critique: string)
    ensures var entries := TraceEntries([AgentOutput("analyst", analysis), AgentOutput("expert", proposal),
                                         AgentOutput("critic", critique)]);
      && |entries| == 3
      && entries[0] == TraceHeading("Analista") + Trim(analysis)
      && entries[1] == TraceHeading("Especialista") + Trim(proposal)
      && entries[2] == TraceHeading("Crítico") + Trim(critique)
  {
    assert AllAgents[0].id == "analyst" && AllAgents[0].name == "Analista";
    assert AllAgents[1].id == "expert" && AllAgents[1].name == "Especialista";
    assert AllAgents[2].id == "critic" && AllAgents[2].name == "Crítico";
    TraceEntryOfAgent(0, analysis);
    TraceEntryOfAgent(1, proposal);
    TraceEntryOfAgent(2, critique);
  }

  /**
   * The trace of the three reasoning stages: each output trimmed, under its
   * agent's display name, in stage order, separated by blank lines.
   */
  lemma ReasoningMarkdownOfStages(analysis: string, proposal: string, critique: string)
    ensures ReasoningMarkdown([AgentOutput("analyst", analysis), AgentOutput("expert", proposal),
                               AgentOutput("critic", critique)])
      == (TraceHeading("Analista") + Trim(analysis))
         + "\n\n" + (TraceHeading("Especialista") + Trim(proposal))
         + "\n\n" + (TraceHeading("Crítico") + Trim(critique))
  {
    var outputs := [AgentOutput("analyst", analysis), AgentOutput("expert", proposal),
                    AgentOutput("critic", critique)];
    var entries := TraceEntries(outputs);
    StageTraceEntries(analysis, proposal, critique);
    JoinThree("\n\n", entries);
    assert ReasoningMarkdown(outputs) == Join("\n\n", entries);
  }

  /** The message that carries both the reasoning trace and the answer. */
  function CreateSwarmMessage(output: SwarmOutput): (r: string)
    ensures |r| == |output.reasoningMarkdown| + |output.responseText| + 25
    ensures r[11..11 + |output.reasoningMarkdown|] == output.reasoningMarkdown
    ensures r[|r| - |output.responseText|..] == output.responseText
    ensures r[..11] == "<thinking>\n"
    ensures r[11 + |output.reasoningMarkdown|..11 + |output.reasoningMarkdown| + 14] == "\n</thinking>\n\n"
  {
    "<thinking>\n" + output.reasoningMarkdown + "\n</thinking>\n\n" + output.responseText
  }

  // ----------------------------------------------------------- the pipeline

  /**
   * Runs the pipeline on a conversation whose last message is the user's
   * question. The input is refused before any stage runs exactly when there
   * is no message or the last one is not the user's; otherwise the four
   * stages are called once each, in order, with the inputs threaded from
   * stage to stage, and the answer is the Consolidator's text. `calls` lists
   * the requests sent to the model, in the order they were sent.
   */
  method RunSwarmOrchestration(
    messages: seq<Message>,
    locationContext: string,
    tools: Toolset,
    complete: ModelRequest -> ModelOutcome)
    returns (result: Result<SwarmOutput>, ghost calls: seq<ModelRequest>)
    ensures result.Err? <==> |messages| == 0 || messages[|messages| - 1].role != User
    ensures |messages| == 0 ==> result == Err(MissingMessages)
    ensures |messages| > 0 && messages[|messages| - 1].role != User ==> result == Err(LastMessageNotFromUser)
    ensures result.Err? ==> calls == []
    ensures result.Ok? ==>
      var userContent := GetMessageContent(messages[|messages| - 1]);
      var input := UserInput(ConversationHistory(messages[..|messages| - 1]), userContent);
      var analysis := ExecuteAgent(complete, Analyst, locationContext, input, None);
      var proposal := ExecuteAgent(complete, Expert, locationContext, ExpertInput(userContent, analysis), None);
      var critique := ExecuteAgent(complete, Critic, locationContext, CriticInput(userContent, proposal), None);
      var finalInput := ConsolidatorInput(userContent, analysis, proposal, critique);
      && calls == [
           AgentRequest(Analyst, locationContext, input, None),
           AgentRequest(Expert, locationContext, ExpertInput(userContent, analysis), None),
           AgentRequest(Critic, locationContext, CriticInput(userContent, proposal), None),
           AgentRequest(Consolidator, ConsolidatorContext(locationContext), finalInput, Some(tools))]
      && result.value.responseText
         == ExecuteAgent(complete, Consolidator, ConsolidatorContext(locationContext), finalInput, Some(tools))
      && result.value.reasoningMarkdown
         == ReasoningMarkdown([AgentOutput("analyst", analysis), AgentOutput("expert", proposal),
                               AgentOutput("critic", critique)])
    ensures forall k :: 0 <= k < |calls| ==> (calls[k].tools.Some? <==> k == 3)
  {
    calls := [];
    if |messages| == 0 {
      return Err(MissingMessages), calls;
    }
    var userMessage := messages[|messages| - 1];
    if userMessage.role != User {
      return Err(LastMessageNotFromUser), calls;
    }
    var userContent := GetMessageContent(userMessage);
    var conversationHistory := ConversationHistory(messages[..|messages| - 1]);
    var agentOutputs: seq<AgentOutput> := [];
    var userInput := UserInput(conversationHistory, userContent);

    // 1. Analyst
    // `calls` is a ghost log kept by hand: each entry is the request that the
    // `ExecuteAgent` call right after it sends to the model (see `ExecuteAgentNeverFails`).
    ghost var r0 := AgentRequest(Analyst, locationContext, userInput, None);
    calls := calls + [r0];
    var analysisOutput := ExecuteAgent(complete, Analyst, locationContext, userInput, None);
    agentOutputs := agentOutputs + [AgentOutput(Analyst.id, analysisOutput)];

    // 2. Expert
    var expertInput := ExpertInput(userContent, analysisOutput);
    ghost var r1 := AgentRequest(Expert, locationContext, expertInput, None);
    calls := calls + [r1];
    var expertOutput := ExecuteAgent(complete, Expert, locationContext, expertInput, None);
    agentOutputs := agentOutputs + [AgentOutput(Expert.id, expertOutput)];

    // 3. Critic
    var criticInput := CriticInput(userContent, expertOutput);
    ghost var r2 := AgentRequest(Critic, locationContext, criticInput, None);
    calls := calls + [r2];
    var criticOutput := ExecuteAgent(complete, Critic, locationContext, criticInput, None);
    agentOutputs := agentOutputs + [AgentOutput(Critic.id, criticOutput)];

    // 4. Consolidator, the only stage handed the tools
    var consolidatorInput := ConsolidatorInput(
      userContent, agentOutputs[0].content, agentOutputs[1].content, agentOutputs[2].content);
    var consolidatorPrompt := ConsolidatorContext(locationContext);
    ghost var r3 := AgentRequest(Consolidator, consolidatorPrompt, consolidatorInput, Some(tools));
    calls := calls + [r3];
    var consolidatorOutput := ExecuteAgent(
      complete, Consolidator, consolidatorPrompt, consolidatorInput, Some(tools));

    LogOfFour(r0, r1, r2, r3);
    LogOfThree(AgentOutput(Analyst.id, analysisOutput), AgentOutput(Expert.id, expertOutput),
               AgentOutput(Critic.id, criticOutput));
    assert Analyst.id == "analyst" && Expert.id == "expert" && Critic.id == "critic";
    ToolsOnlyInLast(calls);
    var reasoningMarkdown := ReasoningMarkdown(agentOutputs);
    result := Ok(SwarmOutput(consolidatorOutput, reasoningMarkdown));
  }

  /** A log of four entries appended one by one. */
  lemma LogOfFour<T>(a: T, b: T, c: T, d: T)
    ensures [] + [a] + [b] + [c] + [d] == [a, b, c, d]
  {
  }

  /** A log of three entries appended one by one. */
  lemma LogOfThree<T>(a: T, b: T, c: T)
    ensures [] + [a] + [b] + [c] == [a, b, c]
  {
  }

  /** Of four requests where only the last carries tools, a request carries tools exactly when it is the fourth. */
  lemma ToolsOnlyInLast(calls: seq<ModelRequest>)
    requires |calls| == 4 && calls[0].tools.None? && calls[1].tools.None? && calls[2].tools.None?
    requires calls[3].tools.Some?
    ensures forall k :: 0 <= k < |calls| ==> (calls[k].tools.Some? <==> k == 3)
  {
  }
}
