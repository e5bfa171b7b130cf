/** The investigation graph as a state machine, driven by arbitrary replies. */
module Graph {
  import opened Domain
  import opened Toolbox
  import opened States
  import opened Routing
  import opened Nodes

  datatype Env = Env(tools: Catalogue, budgets: Budgets)

  datatype Point = At(node: NodeName) | End

  /** Who added a piece of evidence: a gather round, or the test of one hypothesis. */
  datatype Origin = FromGather | FromTest(hypothesis: HypothesisId)

  /** Where the run is, the state, and three history variables the code does not keep: the origin of
      each piece of evidence, the true number of tool runs, and the back edges taken. */
  datatype Config = Config(
    at: Point, state: State, origins: seq<Origin>, toolRuns: nat, backEdges: nat)

  /** The declared edges of the graph. */
  function Edges(node: NodeName): set<Point> {
    match node
    case Triage => {At(Conclude), At(GatherEvidence), At(Escalate)}
    case GatherEvidence => {At(FormHypothesis), At(Conclude), At(Escalate)}
    case FormHypothesis => {At(TestHypothesis), At(Escalate)}
    case TestHypothesis => {At(Conclude), At(GatherEvidence), At(Escalate)}
    case Conclude => {End}
    case Escalate => {End}
  }

  function Route(budgets: BudgetSettings, node: NodeName, s: State): Point {
    match node
    case Triage => At(AfterTriage(s, budgets))
    case GatherEvidence => At(AfterGatherEvidence(s))
    case FormHypothesis => At(AfterFormHypothesis(s))
    case TestHypothesis => At(AfterTestHypothesis(s, budgets))
    case Conclude => End
    case Escalate => End
  }

  /** The evidence a node's tool calls produced, whether or not the node then kept it. */
  function ToolsRun(env: Env, node: NodeName, s: State, reply: Reply): seq<Evidence> {
    if node == GatherEvidence && reply.answer.Plan? then Gathered(env.tools, s, reply.answer.calls)
    else if node == TestHypothesis then TestEvidence(env.tools, s, reply.test)
    else []
  }

  function OriginOf(node: NodeName, s: State): Origin {
    if node == TestHypothesis && s.current.Some? then FromTest(s.current.value.id) else FromGather
  }

  function Next(env: Env, c: Config, reply: Reply): Config {
    if c.at == End then c
    else
      var node := c.at.node;
      var after := Execute(env.tools, node, c.state, reply);
      var target := Route(env.budgets, node, after);
      var kept := Max(0, |after.evidence| - |c.state.evidence|);
      Config(target, after,
             c.origins + seq(kept, _ => OriginOf(node, c.state)),
             c.toolRuns + |ToolsRun(env, node, c.state, reply)|,
             c.backEdges + if node == TestHypothesis && target == At(GatherEvidence) then 1 else 0)
  }

  function Init(env: Env, failure: Failure): Config {
    Config(At(Triage), InitialState(failure, env.budgets), [], 0, 0)
  }

  /** Identifiers are minted fresh: a new hypothesis never reuses one. */
  predicate Fresh(c: Config, reply: Reply) {
    c.at == At(FormHypothesis) && reply.answer.Proposed? ==>
      var ps := reply.answer.proposals;
      && (forall i, j :: 0 <= i < j < |ps| ==> ps[i].id != ps[j].id)
      && (forall i, h :: 0 <= i < |ps| && h in c.state.hypotheses ==> ps[i].id != h.id)
  }

  /** Every configuration along the run sees fresh identifiers. */
  predicate Admits(env: Env, c: Config, replies: seq<Reply>)
    decreases |replies|
  {
    replies == [] || (Fresh(c, replies[0]) && Admits(env, Next(env, c, replies[0]), replies[1..]))
  }

  function RunFrom(env: Env, c: Config, replies: seq<Reply>): Config
    decreases |replies|
  {
    if replies == [] then c else RunFrom(env, Next(env, c, replies[0]), replies[1..])
  }

  /** `c` is reached by some sequence of replies. */
  ghost predicate Reachable(env: Env, failure: Failure, c: Config) {
    exists replies ::
      Admits(env, Init(env, failure), replies) && RunFrom(env, Init(env, failure), replies) == c
  }

  lemma {:induction false} RunAppends(env: Env, c: Config, replies: seq<Reply>, more: seq<Reply>)
    ensures RunFrom(env, c, replies + more) == RunFrom(env, RunFrom(env, c, replies), more)
    ensures Admits(env, c, replies + more)
        <==> Admits(env, c, replies) && Admits(env, RunFrom(env, c, replies), more)
    decreases |replies|
  {
    if replies == [] {
      assert replies + more == more;
    } else {
      assert (replies + more)[0] == replies[0] && (replies + more)[1..] == replies[1..] + more;
      RunAppends(env, Next(env, c, replies[0]), replies[1..], more);
    }
  }
}
