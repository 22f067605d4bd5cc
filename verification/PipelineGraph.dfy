/**
 The assessment pipeline: a fixed set of nodes, fixed edges, one branch, and one gate the
 compiled graph pauses before.
 */
module PipelineGraph {
  import opened Basics

  datatype Node =
    | Understand | Plan | Recon | DiscoverAssets
    | RequestApproval | ExecuteScanners | ImportFindings | EnrichIntelligence | AttackPath
    | AnalyzeFindings | PrioritizeFindings | RemediateFindings | CreateActions | GenerateReport

  datatype Depth = Passive | Standard | Deep

  datatype Scanner = Nmap | Nuclei | Zap

  datatype Principal = Principal(id: nat)

  /** The checkpointed channels the control flow reads; `product` stands for all the others.
      A missing or unreadable depth is `None`. */
  datatype GraphState = GraphState(
    principal: Principal,
    depth: Option<Depth>,
    selected: seq<nat>,
    approvalId: Option<nat>,
    product: int)

  /** The node the graph pauses before. */
  const GATE := ExecuteScanners

  function ActiveScanners(depth: Option<Depth>): seq<Scanner> {
    if depth == Some(Passive) then [] else [Nmap, Nuclei, Zap]
  }

  function RouteAfterDiscovery(s: GraphState): Node {
    if ActiveScanners(s.depth) == [] then AnalyzeFindings
    else if s.selected == [] then AnalyzeFindings
    else RequestApproval
  }

  /** Whether the active-scan block belongs to this run's path. */
  predicate IsActive(s: GraphState) {
    s.depth != Some(Passive) && s.selected != []
  }

  // ----- building the graph -------------------------------------------------

  datatype Vertex = Start | At(node: Node) | End

  class StateGraph {
    var edges: map<Vertex, Vertex>
    var branches: map<Node, seq<Node>>
    var interruptBefore: seq<Node>

    constructor ()
      ensures edges == map[] && branches == map[] && interruptBefore == []
    {
      edges, branches, interruptBefore := map[], map[], [];
    }

    method AddEdge(source: Vertex, target: Vertex)
      modifies this`edges
      ensures edges == old(edges)[source := target]
    {
      edges := edges[source := target];
    }

    method AddConditionalEdges(source: Node, targets: seq<Node>)
      modifies this`branches
      ensures branches == old(branches)[source := targets]
    {
      branches := branches[source := targets];
    }

    method Compile(gates: seq<Node>)
      modifies this`interruptBefore
      ensures interruptBefore == gates
    {
      interruptBefore := gates;
    }

    /** Where the wired graph goes after `n`; a branch vertex consults the router. */
    ghost function Follow(n: Node, s: GraphState): Option<Vertex>
      reads this
    {
      if n in branches then
        if RouteAfterDiscovery(s) in branches[n] then Some(At(RouteAfterDiscovery(s))) else None
      else if At(n) in edges then Some(edges[At(n)])
      else None
    }

    ghost predicate WiresPipeline()
      reads this
    {
      && Start in edges && edges[Start] == At(Understand)
      && interruptBefore == [GATE]
      && forall n: Node, s: GraphState :: Follow(n, s) == Some(ToVertex(Successor(n, s)))
    }
  }

  function ToVertex(n: Option<Node>): Vertex {
    match n
    case None => End
    case Some(m) => At(m)
  }

  const EDGES: map<Vertex, Vertex> := map[
    Start := At(Understand),
    At(Understand) := At(Plan),
    At(Plan) := At(Recon),
    At(Recon) := At(DiscoverAssets),
    At(RequestApproval) := At(ExecuteScanners),
    At(ExecuteScanners) := At(ImportFindings),
    At(ImportFindings) := At(EnrichIntelligence),
    At(EnrichIntelligence) := At(AttackPath),
    At(AttackPath) := At(AnalyzeFindings),
    At(AnalyzeFindings) := At(PrioritizeFindings),
    At(PrioritizeFindings) := At(RemediateFindings),
    At(RemediateFindings) := At(CreateActions),
    At(CreateActions) := At(GenerateReport),
    At(GenerateReport) := End]

  method BuildGraph() returns (g: StateGraph)
    ensures fresh(g) && g.WiresPipeline()
  {
    g := new StateGraph();
    g.AddEdge(Start, At(Understand));
    g.AddEdge(At(Understand), At(Plan));
    g.AddEdge(At(Plan), At(Recon));
    g.AddEdge(At(Recon), At(DiscoverAssets));
    g.AddConditionalEdges(DiscoverAssets, [RequestApproval, AnalyzeFindings]);
    g.AddEdge(At(RequestApproval), At(ExecuteScanners));
    g.AddEdge(At(ExecuteScanners), At(ImportFindings));
    g.AddEdge(At(ImportFindings), At(EnrichIntelligence));
    g.AddEdge(At(EnrichIntelligence), At(AttackPath));
    g.AddEdge(At(AttackPath), At(AnalyzeFindings));
    g.AddEdge(At(AnalyzeFindings), At(PrioritizeFindings));
    g.AddEdge(At(PrioritizeFindings), At(RemediateFindings));
    g.AddEdge(At(RemediateFindings), At(CreateActions));
    g.AddEdge(At(CreateActions), At(GenerateReport));
    g.AddEdge(At(GenerateReport), End);
    g.Compile([ExecuteScanners]);
    assert g.edges == EDGES;
    EdgesFollowSuccessor(g);
  }

  lemma EdgesFollowSuccessor(g: StateGraph)
    requires g.edges == EDGES
    requires g.branches == map[DiscoverAssets := [RequestApproval, AnalyzeFindings]]
    requires g.interruptBefore == [GATE]
    ensures g.WiresPipeline()
  {
    forall n: Node, s: GraphState
      ensures g.Follow(n, s) == Some(ToVertex(Successor(n, s)))
    {
      if n == DiscoverAssets {
        var targets := [RequestApproval, AnalyzeFindings];
        assert targets[0] == RequestApproval && targets[1] == AnalyzeFindings;
      } else {
        assert EDGES[At(n)] == ToVertex(Successor(n, s));
      }
    }
  }

  /** The node that follows `n` once its result is merged into `s`; `None` is the end. */
  function Successor(n: Node, s: GraphState): Option<Node> {
    match n
    case Understand => Some(Plan)
    case Plan => Some(Recon)
    case Recon => Some(DiscoverAssets)
    case DiscoverAssets => Some(RouteAfterDiscovery(s))
    case RequestApproval => Some(ExecuteScanners)
    case ExecuteScanners => Some(ImportFindings)
    case ImportFindings => Some(EnrichIntelligence)
    case EnrichIntelligence => Some(AttackPath)
    case AttackPath => Some(AnalyzeFindings)
    case AnalyzeFindings => Some(PrioritizeFindings)
    case PrioritizeFindings => Some(RemediateFindings)
    case RemediateFindings => Some(CreateActions)
    case CreateActions => Some(GenerateReport)
    case GenerateReport => None
  }

  // ----- the two paths ------------------------------------------------------

  /** The whole pipeline, written down independently of the edges. */
  function Path(active: bool): seq<Node> {
    [Understand, Plan, Recon, DiscoverAssets]
    + (if active then [RequestApproval, ExecuteScanners, ImportFindings, EnrichIntelligence, AttackPath] else [])
    + [AnalyzeFindings, PrioritizeFindings, RemediateFindings, CreateActions, GenerateReport]
  }

  /** Position of a node on a path; the end stands just past the last node. */
  function Position(active: bool, next: Option<Node>): nat {
    match next
    case None => if active then 14 else 9
    case Some(n) =>
      match n
      case Understand => 0
      case Plan => 1
      case Recon => 2
      case DiscoverAssets => 3
      case RequestApproval => 4
      case ExecuteScanners => 5
      case ImportFindings => 6
      case EnrichIntelligence => 7
      case AttackPath => 8
      case AnalyzeFindings => if active then 9 else 4
      case PrioritizeFindings => if active then 10 else 5
      case RemediateFindings => if active then 11 else 6
      case CreateActions => if active then 12 else 7
      case GenerateReport => if active then 13 else 8
  }

  predicate OnPath(active: bool, next: Option<Node>) {
    active || next == None
    || next.value !in {RequestApproval, ExecuteScanners, ImportFindings, EnrichIntelligence, AttackPath}
  }

  /** The part of the path that lies strictly before `next`. */
  function Before(active: bool, next: Option<Node>): (r: seq<Node>)
    requires OnPath(active, next)
    ensures r <= Path(active) && |r| == Position(active, next)
  {
    Path(active)[..Position(active, next)]
  }

  /** Before discovery has reported, the two paths cannot be told apart. */
  predicate Undecided(next: Option<Node>) {
    next.Some? && next.value in {Understand, Plan, Recon, DiscoverAssets}
  }

  lemma UndecidedBefore(a: bool, b: bool, next: Option<Node>)
    requires Undecided(next)
    ensures OnPath(a, next) && OnPath(b, next) && Before(a, next) == Before(b, next)
  {
  }

  /** The edges walk the paths: following one edge advances the position by exactly one node,
      onto the path chosen by the merged state. */
  lemma StepAlongPath(n: Node, before: GraphState, after: GraphState)
    requires OnPath(IsActive(before), Some(n))
    requires n == DiscoverAssets || IsActive(before) == IsActive(after)
    ensures OnPath(IsActive(after), Successor(n, after))
    ensures Before(IsActive(after), Successor(n, after)) == Before(IsActive(before), Some(n)) + [n]
  {
    var a := IsActive(after);
    assert Path(a)[Position(a, Some(n))] == n;
    assert Position(a, Successor(n, after)) == Position(a, Some(n)) + 1;
    if n == DiscoverAssets {
      UndecidedBefore(IsActive(before), a, Some(n));
    }
  }

  /** Nodes still to run, a measure that every edge decreases. */
  function Remaining(next: Option<Node>): (r: nat)
    ensures r == 0 <==> next == None
    ensures r <= 14
  {
    14 - Position(true, next)
  }

  lemma StepDecreases(n: Node, s: GraphState)
    ensures Remaining(Successor(n, s)) < Remaining(Some(n))
  {
  }
}
