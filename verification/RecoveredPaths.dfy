/**
 What crash recovery achieves when checkpoints can be read: the nodes of a run, with adjacent
 repeats removed, walk one fixed path, and a crash leaves no mark on the graph's state.
 */
module RecoveredPaths {
  import opened Basics
  import opened PipelineGraph
  import opened RunRecovery
  import L = AssessmentLifecycle

  /** The executed nodes, with immediate re-executions of the same node collapsed. */
  function Distinct(h: seq<Visit>): seq<Node>
    decreases |h|
  {
    if h == [] then []
    else
      var front := h[..|h| - 1];
      if front != [] && front[|front| - 1].node == h[|h| - 1].node then Distinct(front)
      else Distinct(front) + [h[|h| - 1].node]
  }

  lemma DistinctSnoc(h: seq<Visit>, v: Visit)
    ensures Distinct(h + [v]) ==
            if h != [] && h[|h| - 1].node == v.node then Distinct(h) else Distinct(h) + [v.node]
  {
    assert (h + [v])[..|h|] == h;
  }

  lemma {:induction false} DistinctEndsWithLast(h: seq<Visit>)
    ensures h == [] <==> Distinct(h) == []
    ensures h != [] ==> Distinct(h)[|Distinct(h)| - 1] == h[|h| - 1].node
    decreases |h|
  {
    if h != [] {
      DistinctEndsWithLast(h[..|h| - 1]);
    }
  }

  predicate ReadsCheckpoints(actions: seq<Action>) {
    forall a <- actions :: a.Enter? ==> a.readable
  }

  /** The history has walked the path up to `next`, and may have run `next` as well. */
  ghost predicate Walked(h: seq<Visit>, s: GraphState, next: Option<Node>) {
    var a := IsActive(s);
    && OnPath(a, next)
    && (Distinct(h) == Before(a, next) || (next.Some? && Distinct(h) == Before(a, next) + [next.value]))
  }

  ghost predicate WalkedBy(h: seq<Visit>, c: Checkpoint) {
    match c
    case NoCheckpoint => Distinct(h) == [] || Distinct(h) == [Understand]
    case Saved(s, next) => Walked(h, s, next)
  }

  /** The graph stands at its end or before its gate, with nothing run beyond that point. */
  ghost predicate Stopped(w: World) {
    && w.checkpoint.Saved?
    && (w.checkpoint.next == None || w.checkpoint.next == Some(GATE))
    && OnPath(IsActive(w.checkpoint.state), w.checkpoint.next)
    && Distinct(w.history) == Before(IsActive(w.checkpoint.state), w.checkpoint.next)
  }

  /** The driver's copy of the channels agrees with the checkpoint it works from. */
  ghost predicate InStep(w: World) {
    match w.driver
    case Invoking(e, s, n, _) =>
      w.checkpoint == Saved(s, Some(n))
      || (w.checkpoint == NoCheckpoint && n == Understand && !IsActive(s))
    case Executed(_, s, next, _) =>
      OnPath(IsActive(s), next) && Distinct(w.history) == Before(IsActive(s), next)
    case Settling => Stopped(w)
    case _ => true
  }

  ghost predicate OnTrack(w: World) {
    && Live(w)
    && WalkedBy(w.history, w.checkpoint)
    && InStep(w)
    && (w.run.status == Queued ==> w.checkpoint == NoCheckpoint && w.history == [])
    && (w.run.status == Interrupted ==> Stopped(w) && w.checkpoint.next == Some(GATE))
    && (w.run.status == Completed ==> Stopped(w) && w.checkpoint.next == None)
  }

  lemma VisitExtends(h: seq<Visit>, v: Visit, a: bool)
    requires OnPath(a, Some(v.node))
    requires Distinct(h) == Before(a, Some(v.node)) || Distinct(h) == Before(a, Some(v.node)) + [v.node]
    ensures Distinct(h + [v]) == Before(a, Some(v.node)) + [v.node]
  {
    DistinctSnoc(h, v);
    DistinctEndsWithLast(h);
    NotLastOfBefore(a, v.node);
  }

  lemma MergeKeepsRoute(n: Node, s: GraphState, d: Delta)
    requires n != DiscoverAssets
    ensures IsActive(Merge(n, s, d)) == IsActive(s)
  {
  }

  /** Running a node leaves the history one node further along the path the result chooses. */
  lemma RunNodeWalks(h: seq<Visit>, e: Entry, s: GraphState, n: Node, d: Delta)
    requires Walked(h, s, Some(n))
    ensures var s' := Merge(n, s, d);
      && OnPath(IsActive(s'), Successor(n, s'))
      && Distinct(h + [Visit(n, e)]) == Before(IsActive(s'), Successor(n, s'))
  {
    VisitExtends(h, Visit(n, e), IsActive(s));
    if n != DiscoverAssets {
      MergeKeepsRoute(n, s, d);
    }
    StepAlongPath(n, s, Merge(n, s, d));
  }

  lemma RunNodeOnTrack(w: World, r: NodeResult)
    requires OnTrack(w) && w.driver.Invoking?
    ensures InStep(ApplyRunNode(w, r))
    ensures WalkedBy(ApplyRunNode(w, r).history, w.checkpoint)
  {
    var Invoking(e, s, n, _) := w.driver;
    if w.checkpoint == NoCheckpoint {
      assert Walked(w.history, s, Some(Understand));
    }
    VisitExtends(w.history, Visit(n, e), IsActive(s));
    if r.Returned? {
      RunNodeWalks(w.history, e, s, n, r.delta);
    }
  }

  /** A node does not end the part of the path that lies before it. */
  lemma NotLastOfBefore(a: bool, n: Node)
    requires OnPath(a, Some(n))
    ensures var b := Before(a, Some(n)); b != [] ==> b[|b| - 1] != n
  {
    assert Position(a, Some(n)) > 0 ==> Path(a)[Position(a, Some(n)) - 1] != n;
  }

  lemma EnterOnTrack(w: World)
    requires OnTrack(w) && Safe(w) && w.driver.Inspected?
    ensures OnTrack(ApplyEnter(w, true))
  {
    hide Distinct, GateRespected, ApprovalRequested;
    SafeStep(w, Enter(true));
  }

  lemma SavedOnTrack(w: World, a: Action)
    requires OnTrack(w) && Safe(w) && (a.SaveInput? || a.SaveNode?)
    ensures OnTrack(Apply(w, a))
  {
    hide Distinct, GateRespected, ApprovalRequested, IsActive;
    SafeStep(w, a);
  }

  lemma OnTrackStep(w: World, a: Action)
    requires OnTrack(w) && Safe(w)
    requires a.Enter? ==> a.readable
    ensures OnTrack(Apply(w, a))
  {
    hide Distinct, GateRespected, ApprovalRequested, IsActive, Path, Position, OnPath, Successor, Merge;
    SafeStep(w, a);
    match a
    case Enter(_) =>
      if w.driver.Inspected? {
        EnterOnTrack(w);
      }
    case SaveInput => SavedOnTrack(w, a);
    case SaveNode => SavedOnTrack(w, a);
    case RunNode(r) =>
      if w.driver.Invoking? {
        RunNodeOnTrack(w, r);
      }
    case DieInNode(moves, cursor) =>
      if w.driver.Invoking? {
        RunNodeOnTrack(w, Raised(0, moves, cursor));
      }
    case _ =>
  }

  lemma {:induction false} OnTrackAlways(w: World, actions: seq<Action>)
    requires OnTrack(w) && Safe(w) && ReadsCheckpoints(actions)
    ensures OnTrack(Execute(w, actions))
    decreases |actions|
  {
    if actions != [] {
      OnTrackStep(w, actions[0]);
      SafeStep(w, actions[0]);
      OnTrackAlways(Apply(w, actions[0]), actions[1..]);
    }
  }

  /** Past discovery a walked history fits one path only. */
  lemma WalkedFitsOnePath(h: seq<Visit>, s: GraphState, next: Option<Node>)
    requires Walked(h, s, next)
    ensures Distinct(h) <= Path(IsActive(s))
    ensures |Distinct(h)| > 4 ==> !(Distinct(h) <= Path(!IsActive(s)))
  {
    hide Distinct, IsActive, Path, Position;
    var a := IsActive(s);
    if next.Some? {
      BeforeThenNext(a, next.value);
    }
    PathsPart();
    if |Distinct(h)| > 4 {
      assert Distinct(h)[4] == Path(a)[4];
    }
  }

  lemma BeforeThenNext(a: bool, n: Node)
    requires OnPath(a, Some(n))
    ensures Before(a, Some(n)) + [n] <= Path(a)
  {
  }

  lemma PathsPart()
    ensures |Path(true)| > 4 && |Path(false)| > 4 && Path(true)[4] != Path(false)[4]
  {
  }

  /** Whatever crashes and redeliveries come, the executed nodes are a prefix of a fixed path;
      past discovery it is the path the checkpointed depth and selection choose, and no other. */
  lemma HistoryFollowsOnePath(depth: Depth, actions: seq<Action>)
    requires ReadsCheckpoints(actions)
    ensures var w := Execute(InitialWorld(depth), actions);
      && (exists active :: Distinct(w.history) <= Path(active))
      && (|Distinct(w.history)| > 4 ==>
           w.checkpoint.Saved?
           && forall active :: Distinct(w.history) <= Path(active) <==> active == IsActive(w.checkpoint.state))
  {
    OnTrackAlways(InitialWorld(depth), actions);
    var w := Execute(InitialWorld(depth), actions);
    if w.checkpoint.Saved? {
      WalkedFitsOnePath(w.history, w.checkpoint.state, w.checkpoint.next);
      var a := IsActive(w.checkpoint.state);
      forall active: bool
        ensures |Distinct(w.history)| > 4 ==> (Distinct(w.history) <= Path(active) <==> active == a)
      {
        if active != a {
          assert active == !a;
        }
      }
    } else {
      assert Distinct(w.history) <= Path(false);
    }
  }

  /** A completed run has executed the whole of its path, an interrupted one exactly the nodes
      up to the approval request. */
  lemma SettledRunsStopWhereTheySay(depth: Depth, actions: seq<Action>)
    requires ReadsCheckpoints(actions)
    ensures var w := Execute(InitialWorld(depth), actions);
      && (w.run.status == Completed ==>
           w.checkpoint.Saved? && Distinct(w.history) == Path(IsActive(w.checkpoint.state)))
      && (w.run.status == Interrupted ==>
           Distinct(w.history) == [Understand, Plan, Recon, DiscoverAssets, RequestApproval])
  {
    OnTrackAlways(InitialWorld(depth), actions);
  }

  // ----- crashes leave no mark on the graph's state ---------------------------------

  /** The channels a run ends with when every node runs exactly once and nothing crashes. */
  function Finish(nodes: (Node, GraphState) -> Delta, s: GraphState, next: Option<Node>): GraphState
    decreases Remaining(next)
  {
    match next
    case None => s
    case Some(n) =>
      var s' := Merge(n, s, nodes(n, s));
      StepDecreases(n, s');
      Finish(nodes, s', Successor(n, s'))
  }

  /** Nodes compute their update from the channels alone, and every delivery that carries a
      principal carries the one who started the run. */
  ghost predicate Repeatable(w: World, actions: seq<Action>, nodes: (Node, GraphState) -> Delta, p: Principal)
    decreases |actions|
  {
    actions == [] ||
    (&& (actions[0].Deliver? ==> actions[0].principal in {None, Some(p)})
     && (actions[0].RunNode? && actions[0].result.Returned? && w.driver.Invoking? ==>
           actions[0].result.delta == nodes(w.driver.next, w.driver.state))
     && Repeatable(Apply(w, actions[0]), actions[1..], nodes, p))
  }

  ghost predicate HeadedFor(w: World, nodes: (Node, GraphState) -> Delta, goal: GraphState, p: Principal) {
    && Finish(nodes, Seed(p, w.depth), Some(Understand)) == goal
    && (w.checkpoint.Saved? ==> Finish(nodes, w.checkpoint.state, w.checkpoint.next) == goal)
    && (w.run.status == Completed ==> w.checkpoint.Saved? && w.checkpoint.next == None)
    && match w.driver
       case Inspected(_, q) => q in {None, Some(p)}
       case Invoking(_, s, n, _) => Finish(nodes, s, Some(n)) == goal
       case Executed(_, s, next, _) => Finish(nodes, s, next) == goal
       case Settling => w.checkpoint.Saved?
       case _ => true
  }

  lemma HeadedStep(w: World, a: Action, nodes: (Node, GraphState) -> Delta, goal: GraphState, p: Principal)
    requires Safe(w) && HeadedFor(w, nodes, goal, p) && Repeatable(w, [a], nodes, p)
    ensures HeadedFor(Apply(w, a), nodes, goal, p)
  {
    hide Successor, Merge, GateRespected, ApprovalRequested;
    match a
    case Deliver(_) =>
    case Enter(_) =>
    case SaveInput =>
    case RunNode(r) =>
    case DieInNode(_, _) =>
    case SaveNode =>
    case Settle =>
    case CommitFailure(_) =>
    case Emit =>
    case Crash =>
    case RequestCancel =>
    case CancelByWorker =>
    case SettleOrphan =>
  }

  lemma {:induction false} StaysHeaded(
      w: World, actions: seq<Action>, nodes: (Node, GraphState) -> Delta, goal: GraphState, p: Principal)
    requires Safe(w) && HeadedFor(w, nodes, goal, p) && Repeatable(w, actions, nodes, p)
    ensures HeadedFor(Execute(w, actions), nodes, goal, p)
    decreases |actions|
  {
    if actions != [] {
      SafeStep(w, actions[0]);
      assert Repeatable(w, [actions[0]], nodes, p);
      HeadedStep(w, actions[0], nodes, goal, p);
      StaysHeaded(Apply(w, actions[0]), actions[1..], nodes, goal, p);
    }
  }

  /** However often a run crashed, was redelivered, or was seeded anew over an unreadable
      checkpoint, a completed run holds exactly the channels of one undisturbed execution. */
  lemma CrashesLeaveNoMark(depth: Depth, actions: seq<Action>, nodes: (Node, GraphState) -> Delta, p: Principal)
    requires Repeatable(InitialWorld(depth), actions, nodes, p)
    ensures var w := Execute(InitialWorld(depth), actions);
      w.run.status == Completed ==>
        w.checkpoint == Saved(Finish(nodes, Seed(p, depth), Some(Understand)), None)
  {
    StaysHeaded(InitialWorld(depth), actions, nodes, Finish(nodes, Seed(p, depth), Some(Understand)), p);
  }

  // ----- the pause that a crash can swallow -----------------------------------------

  /** The gate's checkpoint is written, but the run is not yet recorded as interrupted. */
  ghost predicate PauseUnrecorded(w: World) {
    w.driver.Settling? && w.checkpoint.Saved? && w.checkpoint.next == Some(GATE)
  }

  /** A live run stands at the gate and is past settling. */
  ghost predicate PauseRecorded(w: World) {
    && w.checkpoint.Saved? && w.checkpoint.next == Some(GATE)
    && !w.driver.Settling? && !IsTerminal(w.run.status)
  }

  ghost predicate KeepsPauses(w: World, actions: seq<Action>)
    decreases |actions|
  {
    actions == [] ||
    (!(actions[0] == Crash && PauseUnrecorded(w)) && KeepsPauses(Apply(w, actions[0]), actions[1..]))
  }

  predicate Scanned(h: seq<Visit>) {
    exists v <- h :: v.node == GATE
  }

  ghost predicate PausedFirst(w: World) {
    && (Scanned(w.history) ==> w.everInterrupted)
    && (w.driver.Invoking? && w.driver.next == GATE ==> w.everInterrupted)
    && (PauseRecorded(w) ==> w.everInterrupted)
    && (w.run.status == Interrupted ==> w.everInterrupted)
  }

  lemma PausedFirstStep(w: World, a: Action)
    requires Safe(w) && PausedFirst(w) && !(a == Crash && PauseUnrecorded(w))
    ensures PausedFirst(Apply(w, a))
  {
    match a
    case Deliver(_) =>
    case Enter(_) =>
    case SaveInput =>
    case RunNode(r) =>
    case DieInNode(_, _) =>
    case SaveNode =>
    case Settle =>
    case CommitFailure(_) =>
    case Emit =>
    case Crash =>
    case RequestCancel =>
    case CancelByWorker =>
    case SettleOrphan =>
  }

  lemma {:induction false} StaysPausedFirst(w: World, actions: seq<Action>)
    requires Safe(w) && PausedFirst(w) && KeepsPauses(w, actions)
    ensures PausedFirst(Execute(w, actions))
    decreases |actions|
  {
    hide Safe, PausedFirst;
    if actions != [] {
      SafeStep(w, actions[0]);
      PausedFirstStep(w, actions[0]);
      StaysPausedFirst(Apply(w, actions[0]), actions[1..]);
    }
  }

  /** A run in which no crash falls between the gate's checkpoint and its record is recorded as
      interrupted before any scanner node runs. */
  lemma ScansOnlyAfterPause(depth: Depth, actions: seq<Action>)
    requires KeepsPauses(InitialWorld(depth), actions)
    ensures var w := Execute(InitialWorld(depth), actions);
      Scanned(w.history) ==> w.everInterrupted
  {
    StaysPausedFirst(InitialWorld(depth), actions);
  }

  /** Up to its first recorded pause, a run that crashes and is delivered again walks straight
      into the scanner node if and only if the crash swallowed the pause. */
  lemma CrashSkipsPauseIff(w: World, p: Option<Principal>)
    requires Safe(w) && PausedFirst(w) && !w.everInterrupted
    ensures var w' := Execute(w, [Crash, Deliver(p), Enter(true)]);
      (w'.driver.Invoking? && w'.driver.next == GATE && !w'.everInterrupted) <==> PauseUnrecorded(w)
  {
    var w1 := Apply(w, Crash);
    var w2 := Apply(w1, Deliver(p));
    assert [Crash, Deliver(p), Enter(true)][1..] == [Deliver(p), Enter(true)];
    assert [Deliver(p), Enter(true)][1..] == [Enter(true)];
    assert Execute(w2, [Enter(true)]) == Apply(w2, Enter(true));
    assert Execute(w, [Crash, Deliver(p), Enter(true)]) == Apply(w2, Enter(true));
  }

  /** The moves the nodes of the pipeline make. */
  function MovesOf(n: Node): seq<L.AssessmentStatus> {
    match n
    case Understand => [L.Planning]
    case Plan => [L.Planning]
    case Recon => [L.Discovery]
    case DiscoverAssets => [L.Discovery]
    case RequestApproval => [L.WaitingForApproval]
    case ExecuteScanners => [L.Scanning]
    case ImportFindings => [L.Analyzing]
    case EnrichIntelligence => [L.Analyzing]
    case AttackPath => []
    case AnalyzeFindings => [L.Analyzing]
    case PrioritizeFindings => [L.Analyzing]
    case RemediateFindings => [L.Remediating]
    case CreateActions => [L.Remediating]
    case GenerateReport => [L.Remediating, L.Completed]
  }

  /** A node that does its work and makes its moves; `selected` is what discovery selects. */
  function UsualResult(n: Node, selected: seq<nat>): NodeResult {
    Returned(Delta(selected, if n == RequestApproval then Some(0) else None, 0), MovesOf(n), true)
  }

  /** A scanning run under way, not past its gate. */
  ghost predicate OnTheWay(w: World) {
    && w.run.status == Running && !w.everInterrupted
    && (w.driver.Invoking? ==>
         && w.driver.state.depth.Some? && w.driver.state.depth != Some(Passive)
         && (Undecided(Some(w.driver.next)) || w.driver.next == RequestApproval)
         && L.CanTransition(w.assessment, MovesOf(w.driver.next)[0]))
    && (PauseUnrecorded(w) ==> w.assessment == L.WaitingForApproval)
  }

  lemma WalkOn(w: World)
    requires OnTheWay(w) && w.driver.Invoking?
    ensures var w' := Apply(Apply(w, RunNode(UsualResult(w.driver.next, [0]))), SaveNode);
      && OnTheWay(w') && (w'.driver.Invoking? || PauseUnrecorded(w'))
      && (w'.driver.Invoking? ==> Remaining(Some(w'.driver.next)) < Remaining(Some(w.driver.next)))
  {
  }

  lemma StartUp(depth: Depth, p: Principal)
    requires depth != Passive
    ensures var w := Apply(Apply(InitialWorld(depth), Deliver(Some(p))), Enter(true));
      OnTheWay(w) && w.driver.Invoking?
  {
  }

  lemma SlipThrough(w: World)
    requires OnTheWay(w) && PauseUnrecorded(w)
    ensures var w' := Apply(Apply(Apply(Apply(w, Crash), Deliver(None)), Enter(true)), RunNode(UsualResult(GATE, [0])));
      Scanned(w'.history) && !w'.everInterrupted && w'.assessment == L.Scanning
  {
    var v := Visit(GATE, Resumed(GATE));
    assert v in w.history + [v];
  }

  /** Such a crash exists for every depth that scans: the nodes move the assessment as they do in
      the pipeline, the approval is requested, and the scanner node then runs, and takes the
      assessment to scanning, in a run that was never recorded as interrupted. */
  lemma SwallowedPauseHappens(depth: Depth, p: Principal) returns (actions: seq<Action>)
    requires depth != Passive
    ensures var w := Execute(InitialWorld(depth), actions);
      Scanned(w.history) && !w.everInterrupted && w.assessment == L.Scanning
  {
    hide Execute, Apply, OnTheWay, Scanned, UsualResult;
    StartUp(depth, p);
    var init := InitialWorld(depth);
    ExecuteNothing(init);
    var w := init;
    actions := [];
    w, actions := Extend(init, actions, w, Deliver(Some(p)));
    w, actions := Extend(init, actions, w, Enter(true));
    while w.driver.Invoking?
      invariant w == Execute(init, actions)
      invariant OnTheWay(w) && (w.driver.Invoking? || PauseUnrecorded(w))
      decreases if w.driver.Invoking? then Remaining(Some(w.driver.next)) else 0
    {
      WalkOn(w);
      w, actions := Extend(init, actions, w, RunNode(UsualResult(w.driver.next, [0])));
      w, actions := Extend(init, actions, w, SaveNode);
    }
    SlipThrough(w);
    w, actions := Extend(init, actions, w, Crash);
    w, actions := Extend(init, actions, w, Deliver(None));
    w, actions := Extend(init, actions, w, Enter(true));
    w, actions := Extend(init, actions, w, RunNode(UsualResult(GATE, [0])));
  }

  // ----- a completion nobody hears of ------------------------------------------------

  /** Where the assessment stands before each node of a run that scans nothing. */
  function StatusBefore(n: Node): L.AssessmentStatus {
    match n
    case Understand => L.Created
    case Plan => L.Planning
    case Recon => L.Planning
    case DiscoverAssets => L.Discovery
    case AnalyzeFindings => L.Discovery
    case PrioritizeFindings => L.Analyzing
    case RemediateFindings => L.Analyzing
    case _ => L.Remediating
  }

  /** A run that scans nothing, under way or at its end. */
  ghost predicate Quiet(w: World) {
    && w.run.status == Running && w.events == []
    && match w.driver
       case Invoking(_, s, n, _) =>
         s.selected == [] && OnPath(false, Some(n)) && w.assessment == StatusBefore(n)
       case Settling => w.assessment == L.Completed && w.checkpoint.Saved? && w.checkpoint.next == None
       case _ => false
  }

  lemma MovesCommitted(n: Node)
    requires OnPath(false, Some(n))
    ensures Committed(StatusBefore(n), MovesOf(n)) == (MovesOf(n)[|MovesOf(n)| - 1], true)
  {
    var moves := MovesOf(n);
    if |moves| == 2 {
      assert moves[1..] == [L.Completed] && moves[1..][1..] == [];
      assert Committed(L.Remediating, moves[1..]) == (L.Completed, true);
    } else {
      assert moves[1..] == [];
      assert Committed(moves[0], moves[1..]) == (moves[0], true);
    }
  }

  lemma QuietStep(w: World)
    requires Quiet(w) && w.driver.Invoking?
    ensures var w' := Apply(Apply(w, RunNode(UsualResult(w.driver.next, []))), SaveNode);
      && Quiet(w')
      && (w'.driver.Invoking? ==> Remaining(Some(w'.driver.next)) < Remaining(Some(w.driver.next)))
  {
    hide Committed, Successor, Merge, MovesOf, StatusBefore, OnPath, Remaining;
    var Invoking(_, s, n, _) := w.driver;
    var s' := Merge(n, s, UsualResult(n, []).delta);
    MovesCommitted(n);
    NextQuiet(n, s, UsualResult(n, []).delta);
    StepDecreases(n, s');
  }

  lemma NextQuiet(n: Node, s: GraphState, d: Delta)
    requires OnPath(false, Some(n)) && s.selected == [] && d.selected == []
    ensures var s' := Merge(n, s, d);
      && s'.selected == []
      && match Successor(n, s')
         case None => MovesOf(n)[|MovesOf(n)| - 1] == L.Completed
         case Some(next) =>
           OnPath(false, Some(next)) && next != GATE && StatusBefore(next) == MovesOf(n)[|MovesOf(n)| - 1]
  {
  }

  /** It happens for every depth: the pipeline runs to its end and completes the assessment, the worker
      dies before the run is settled, and the run is recorded as cancelled and never reported. */
  lemma CompletedRunEndsSilent(depth: Depth, p: Principal) returns (actions: seq<Action>)
    ensures var w := Execute(InitialWorld(depth), actions);
      Silent(w) && w.run.status == Cancelled && w.assessment == L.Completed
      && w.checkpoint.Saved? && w.checkpoint.next == None
  {
    hide Execute, ApplyRunNode, Quiet, UsualResult;
    QuietStart(depth, p);
    var init := InitialWorld(depth);
    ExecuteNothing(init);
    var w := init;
    actions := [];
    w, actions := Extend(init, actions, w, Deliver(Some(p)));
    w, actions := Extend(init, actions, w, Enter(true));
    while w.driver.Invoking?
      invariant w == Execute(init, actions) && Quiet(w)
      decreases if w.driver.Invoking? then Remaining(Some(w.driver.next)) else 0
    {
      QuietStep(w);
      w, actions := Extend(init, actions, w, RunNode(UsualResult(w.driver.next, [])));
      w, actions := Extend(init, actions, w, SaveNode);
    }
    QuietEnd(w);
    w, actions := Extend(init, actions, w, Crash);
    w, actions := Extend(init, actions, w, SettleOrphan);
  }

  lemma QuietStart(depth: Depth, p: Principal)
    ensures var w := Apply(Apply(InitialWorld(depth), Deliver(Some(p))), Enter(true));
      Quiet(w) && w.driver.Invoking?
  {
  }

  lemma QuietEnd(w: World)
    requires Quiet(w) && !w.driver.Invoking?
    ensures var w' := Apply(Apply(w, Crash), SettleOrphan);
      Silent(w') && w'.run.status == Cancelled && w'.assessment == L.Completed && w'.checkpoint == w.checkpoint
    ensures w.checkpoint.Saved? && w.checkpoint.next == None
  {
  }

  lemma Extend(init: World, actions: seq<Action>, w: World, a: Action) returns (w': World, actions': seq<Action>)
    requires w == Execute(init, actions)
    ensures actions' == actions + [a] && w' == Apply(w, a) && w' == Execute(init, actions')
  {
    ExecuteSnoc(init, actions, a);
    w', actions' := Apply(w, a), actions + [a];
  }
}
