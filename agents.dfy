/**
 * The fixed table of the four pipeline agents: identity, display name,
 * description, system prompt and whether the agent may be handed tools.
 * The table is a constant; the agents run in the order in which it lists them.
 */
module Agents {
  import opened Strings

  datatype Agent = Agent(
    id: string,
    name: string,
    description: string,
    systemPrompt: string,
    usesTool: bool)

  /*
   * The system prompts are long instruction texts. Nothing in the pipeline
   * depends on their wording, so they are opaque constants here.
   */
  const AnalystSystemPrompt: string
  const ExpertSystemPrompt: string
  const CriticSystemPrompt: string
  const ConsolidatorSystemPrompt: string

  const Analyst: Agent := Agent(
    "analyst", "Analista",
    "Analisa a pergunta e identifica pontos-chave para resolução",
    AnalystSystemPrompt, false)

  const Expert: Agent := Agent(
    "expert", "Especialista",
    "Elabora uma solução detalhada com base na análise",
    ExpertSystemPrompt, false)

  const Critic: Agent := Agent(
    "critic", "Crítico",
    "Avalia a solução proposta em busca de melhorias",
    CriticSystemPrompt, false)

  const Consolidator: Agent := Agent(
    "consolidator", "Consolidador",
    "Produz a resposta final incorporando todas as contribuições",
    ConsolidatorSystemPrompt, true)

  /** The fixed sequence of agents. */
  const AllAgents: seq<Agent> := [Analyst, Expert, Critic, Consolidator]

  /** `agents.map(agent => agent.id)`. */
  function Ids(agents: seq<Agent>): (r: seq<string>)
    ensures |r| == |agents|
    ensures forall i :: 0 <= i < |agents| ==> r[i] == agents[i].id
    decreases |agents|
  {
    if |agents| == 0 then [] else [agents[0].id] + Ids(agents[1..])
  }

  const AgentIds: seq<string> := Ids(AllAgents)

  /** `agents[i]` is the first agent in `agents` whose id is `id`. */
  predicate FirstWithId(agents: seq<Agent>, id: string, i: int)
  {
    0 <= i < |agents| && agents[i].id == id && forall j :: 0 <= j < i ==> agents[j].id != id
  }

  /**
   * `agents.find(a => a.id === id)`: the first agent carrying `id`, or
   * `None` when no agent does.
   */
  function FindById(agents: seq<Agent>, id: string): (r: Option<Agent>)
    ensures r.None? <==> forall i :: 0 <= i < |agents| ==> agents[i].id != id
    ensures r.Some? ==> r.value.id == id
    ensures r.Some? ==> exists i :: FirstWithId(agents, id, i) && agents[i] == r.value
    decreases |agents|
  {
    if |agents| == 0 then None
    else if agents[0].id == id then Some(agents[0])
    else
      var r := FindById(agents[1..], id);
      assert forall i :: 1 <= i < |agents| ==> agents[i] == agents[1..][i - 1];
      assert r.Some? ==> exists i :: FirstWithId(agents[1..], id, i) && agents[1..][i] == r.value;
      assert r.Some? ==> exists i :: FirstWithId(agents, id, i) && agents[i] == r.value by {
        if r.Some? {
          var i :| FirstWithId(agents[1..], id, i) && agents[1..][i] == r.value;
          assert FirstWithId(agents, id, i + 1);
        }
      }
      r
  }

  /** The agent ids, in pipeline order. */
  lemma AgentIdsInOrder()
    ensures AgentIds == ["analyst", "expert", "critic", "consolidator"]
  {
  }

  /** No two agents share an id. */
  lemma AgentIdsDistinct()
    ensures forall i, j :: 0 <= i < j < |AgentIds| ==> AgentIds[i] != AgentIds[j]
  {
    AgentIdsInOrder();
  }

  /** Looking an agent up by its own id finds exactly that agent. */
  lemma FindByIdFindsAgent(i: int)
    requires 0 <= i < |AllAgents|
    ensures FindById(AllAgents, AllAgents[i].id) == Some(AllAgents[i])
  {
    AgentIdsDistinct();
  }

  /** The display names, in pipeline order; they are pairwise distinct. */
  lemma AgentNames()
    ensures forall i, j :: 0 <= i < j < |AllAgents| ==> AllAgents[i].name != AllAgents[j].name
    ensures AllAgents[0].name == "Analista" && AllAgents[1].name == "Especialista"
    ensures AllAgents[2].name == "Crítico" && AllAgents[3].name == "Consolidador"
  {
  }

  /** Only the last agent, the Consolidator, may be handed tools. */
  lemma OnlyConsolidatorUsesTools()
    ensures forall i :: 0 <= i < |AllAgents| ==> (AllAgents[i].usesTool <==> AllAgents[i] == Consolidator)
    ensures AllAgents[|AllAgents| - 1] == Consolidator
  {
  }
}
