/**
 What crash recovery achieves when a checkpoint may turn out to be unreadable, so that a run is
 seeded again over what it did before: since the seed that is in use, it still walks one fixed path.
 */
module ReseededPaths {
  import opened Basics
  import opened PipelineGraph
  import opened RunRecovery
  import opened RecoveredPaths
  import L = AssessmentLifecycle

  /** The history without the visits of the first node at its end: seeds that may have left no
      checkpoint behind. */
  function Settled(h: seq<Visit>): (r: seq<Visit>)
    ensures r <= h
    decreases |h|
  {
    if h != [] && h[|h| - 1].node == Understand then Settled(h[..|h| - 1]) else h
  }

  /** The visits since the seed that the last one descends from.  The first node starts over; a
      resume past the second node goes back behind seeds that left no checkpoint. */
  function Segment(h: seq<Visit>): seq<Visit>
    decreases |h|
  {
    if h == [] then []
    else
      var front, v := h[..|h| - 1], h[|h| - 1];
      if v.node == Understand then [v]
      else if v.entry == Resumed(v.node) && v.node != Plan then Segment(Settled(front)) + [v]
      else Segment(front) + [v]
  }

  ghost predicate Fits(segment: seq<Visit>) {
    exists active :: Distinct(segment) <= Path(active)
  }

  ghost predicate AllFit(h: seq<Visit>) {
    forall i :: 0 <= i <= |h| ==> Fits(Segment(h[..i]))
  }

  /** What is known of a checkpoint at each node it can be parked before. */
  ghost predicate SavedBy(h: seq<Visit>, c: Checkpoint) {
    match c
    case NoCheckpoint => true
    case Saved(s, next) =>
      if next == Some(Understand) then true
      else if next == Some(Plan) then Distinct(Segment(h)) in {[Understand], [Understand, Plan]}
      else Walked(Segment(Settled(h)), s, next)
  }

  ghost predicate StoppedThere(w: World) {
    && w.checkpoint.Saved?
    && (w.checkpoint.next == None || w.checkpoint.next == Some(GATE))
    && OnPath(IsActive(w.checkpoint.state), w.checkpoint.next)
    && Distinct(Segment(Settled(w.history))) == Before(IsActive(w.checkpoint.state), w.checkpoint.next)
  }

  ghost predicate Follows(w: World) {
    match w.driver
    case Invoking(e, s, n, _) =>
      && (n != Understand ==> w.checkpoint == Saved(s, Some(n)))
      && (n != Understand && n != Plan && e != Resumed(n) ==> Settled(w.history) == w.history)
    case Executed(_, s, next, _) =>
      && OnPath(IsActive(s), next) && next != Some(Understand)
      && Distinct(Segment(w.history)) == Before(IsActive(s), next)
    case Settling => StoppedThere(w)
    case _ => true
  }

  ghost predicate OnThread(w: World) {
    && Live(w)
    && AllFit(w.history)
    && SavedBy(w.history, w.checkpoint)
    && Follows(w)
    && (w.run.status == Interrupted ==> StoppedThere(w) && w.checkpoint.next == Some(GATE))
    && (w.run.status == Completed ==> StoppedThere(w) && w.checkpoint.next == None)
  }

  // ----- one more visit -----------------------------------------------------------------

  lemma SegmentSnoc(h: seq<Visit>, v: Visit)
    ensures Segment(h + [v]) ==
            if v.node == Understand then [v]
            else if v.entry == Resumed(v.node) && v.node != Plan then Segment(Settled(h)) + [v]
            else Segment(h) + [v]
    ensures Settled(h + [v]) == if v.node == Understand then Settled(h) else h + [v]
  {
    assert (h + [v])[..|h|] == h;
  }

  lemma FirstNodeAlone(v: Visit)
    ensures Distinct([v]) == [v.node]
  {
    assert [v][..0] == [];
  }

  lemma AllFitSnoc(h: seq<Visit>, v: Visit)
    requires AllFit(h) && Fits(Segment(h + [v]))
    ensures AllFit(h + [v])
  {
    hide Fits, Segment;
    forall i | 0 <= i <= |h + [v]|
      ensures Fits(Segment((h + [v])[..i]))
    {
      if i <= |h| {
        assert (h + [v])[..i] == h[..i];
      } else {
        assert (h + [v])[..i] == h + [v];
      }
    }
  }

  /** The part of the history that a node about to run continues. */
  function Continued(w: World): seq<Visit>
    requires w.driver.Invoking?
  {
    var Invoking(e, _, n, _) := w.driver;
    if n == Understand then []
    else if e == Resumed(n) && n != Plan then Segment(Settled(w.history))
    else Segment(w.history)
  }

  lemma ContinuesPath(w: World)
    requires OnThread(w) && w.driver.Invoking?
    ensures Walked(Continued(w), w.driver.state, Some(w.driver.next))
    ensures Segment(w.history + [Visit(w.driver.next, w.driver.entry)])
            == Continued(w) + [Visit(w.driver.next, w.driver.entry)]
  {
    hide Distinct, Segment, AllFit, Live, StoppedThere;
    SegmentSnoc(w.history, Visit(w.driver.next, w.driver.entry));
    NothingWalked();
  }

  lemma NothingWalked()
    ensures Distinct([]) == []
  {
  }

  lemma VisitOnThread(w: World, r: NodeResult)
    requires OnThread(w) && w.driver.Invoking?
    ensures var h' := ApplyRunNode(w, r).history;
      AllFit(h') && SavedBy(h', w.checkpoint)
  {
    hide AllFit, Live, StoppedThere, Settled, Segment, Distinct, Path, Position;
    var Invoking(e, s, n, _) := w.driver;
    var v := Visit(n, e);
    ContinuesPath(w);
    VisitExtends(Continued(w), v, IsActive(s));
    BeforeThenNext(IsActive(s), n);
    assert Fits(Segment(w.history + [v]));
    AllFitSnoc(w.history, v);
    SavedByVisit(w.history, v, w.checkpoint, s, IsActive(s));
  }

  /** A visit of the node a checkpoint is parked before, or of the first node over any checkpoint. */
  lemma SavedByVisit(h: seq<Visit>, v: Visit, c: Checkpoint, s: GraphState, a: bool)
    requires SavedBy(h, c) && a == IsActive(s)
    requires v.node == Understand || c == Saved(s, Some(v.node))
    requires OnPath(a, Some(v.node)) && Distinct(Segment(h + [v])) == Before(a, Some(v.node)) + [v.node]
    ensures SavedBy(h + [v], c)
  {
    hide Distinct, Segment, Settled, Path;
    SegmentSnoc(h, v);
    FirstNodeAlone(v);
    if v.node == Plan {
      FirstTwo(a);
    }
  }

  lemma FirstTwo(a: bool)
    ensures Before(a, Some(Plan)) == [Understand] && Before(a, Some(Plan)) + [Plan] == [Understand, Plan]
  {
  }

  lemma RunNodeOnThread(w: World, r: NodeResult)
    requires OnThread(w) && Safe(w) && w.driver.Invoking?
    ensures OnThread(ApplyRunNode(w, r))
  {
    hide AllFit, StoppedThere, Settled, Segment, Distinct, Path, Position, IsActive, Merge;
    hide GateRespected, ApprovalRequested;
    var Invoking(e, s, n, _) := w.driver;
    VisitOnThread(w, r);
    ContinuesPath(w);
    SafeRunNode(w, r);
    if r.Returned? {
      RunNodeWalks(Continued(w), e, s, n, r.delta);
    }
  }

  lemma DieOnThread(w: World, moves: seq<L.AssessmentStatus>, cursor: bool)
    requires OnThread(w) && Safe(w) && w.driver.Invoking?
    ensures OnThread(ApplyDieInNode(w, moves, cursor))
  {
    hide AllFit, Settled, Segment, Distinct, Path, Position, IsActive, Merge, Committed, SavedBy;
    VisitOnThread(w, Raised(0, moves, cursor));
    assert ApplyDieInNode(w, moves, cursor).history == ApplyRunNode(w, Raised(0, moves, cursor)).history;
  }

  // ----- the other steps -----------------------------------------------------------------

  /** Past the second node a walked segment does not end with the first node. */
  lemma PastFirst(h: seq<Visit>, a: bool, next: Option<Node>)
    requires OnPath(a, next) && next !in {Some(Understand), Some(Plan)}
    requires Distinct(Segment(h)) == Before(a, next)
    ensures Settled(h) == h
  {
    hide Distinct;
    assert |Before(a, next)| > 1;
    if h != [] {
      FirstNodeAlone(h[|h| - 1]);
    }
  }

  lemma SaveNodeOnThread(w: World)
    requires OnThread(w) && Safe(w) && w.driver.Executed?
    ensures OnThread(ApplySaveNode(w))
  {
    hide AllFit, Settled, Segment, Distinct, IsActive, Path, Position, GateRespected, ApprovalRequested;
    var Executed(e, s, next, _) := w.driver;
    SafeStep(w, SaveNode);
    FirstTwo(IsActive(s));
    if next != Some(Plan) {
      PastFirst(w.history, IsActive(s), next);
    }
  }

  lemma EnterOnThread(w: World, readable: bool)
    requires OnThread(w) && Safe(w) && w.driver.Inspected?
    ensures OnThread(ApplyEnter(w, readable))
  {
    hide AllFit, Settled, Segment, Distinct, IsActive, GateRespected, ApprovalRequested;
    SafeStep(w, Enter(readable));
  }

  lemma OnThreadStep(w: World, a: Action)
    requires OnThread(w) && Safe(w)
    ensures OnThread(Apply(w, a))
  {
    hide AllFit, Settled, Segment, Distinct, IsActive, Path, Position, OnPath, Merge, GateRespected, ApprovalRequested;
    hide ApplyRunNode, ApplyDieInNode, ApplyEnter, ApplySaveNode;
    SafeStep(w, a);
    match a
    case Enter(readable) =>
      if w.driver.Inspected? {
        EnterOnThread(w, readable);
      }
    case RunNode(r) =>
      if w.driver.Invoking? {
        RunNodeOnThread(w, r);
      }
    case DieInNode(moves, cursor) =>
      if w.driver.Invoking? {
        DieOnThread(w, moves, cursor);
      }
    case SaveNode =>
      if w.driver.Executed? {
        SaveNodeOnThread(w);
      }
    case _ =>
  }

  lemma {:induction false} OnThreadAlways(w: World, actions: seq<Action>)
    requires OnThread(w) && Safe(w)
    ensures OnThread(Execute(w, actions))
    decreases |actions|
  {
    hide OnThread, Safe, Apply;
    if actions != [] {
      OnThreadStep(w, actions[0]);
      SafeStep(w, actions[0]);
      OnThreadAlways(Apply(w, actions[0]), actions[1..]);
    }
  }

  lemma StartsOnThread(depth: Depth)
    ensures OnThread(InitialWorld(depth))
  {
    assert Distinct(Segment([])) <= Path(true);
    assert Fits(Segment([]));
  }

  /** Whatever crashes, redeliveries, unreadable checkpoints and new seeds come: at every moment the
      nodes executed since the seed in use are a prefix of a fixed path. */
  lemma EverySegmentFollowsAPath(depth: Depth, actions: seq<Action>, i: nat)
    requires i <= |Execute(InitialWorld(depth), actions).history|
    ensures exists active :: Distinct(Segment(Execute(InitialWorld(depth), actions).history[..i])) <= Path(active)
  {
    StartsOnThread(depth);
    OnThreadAlways(InitialWorld(depth), actions);
    assert Fits(Segment(Execute(InitialWorld(depth), actions).history[..i]));
  }

  /** A completed run has executed the whole path its state chooses since the seed in use, and an
      interrupted one exactly the nodes up to the approval request. */
  lemma SettledSegmentsStopWhereTheySay(depth: Depth, actions: seq<Action>)
    ensures var w := Execute(InitialWorld(depth), actions);
      && (w.run.status == Completed ==>
           w.checkpoint.Saved? && Distinct(Segment(Settled(w.history))) == Path(IsActive(w.checkpoint.state)))
      && (w.run.status == Interrupted ==>
           Distinct(Segment(Settled(w.history))) == [Understand, Plan, Recon, DiscoverAssets, RequestApproval])
  {
    hide Distinct, Segment, Settled, AllFit, Live;
    StartsOnThread(depth);
    OnThreadAlways(InitialWorld(depth), actions);
  }

  /** Cutting at every new seed would not do: a seed that left no checkpoint is abandoned, and the
      next readable delivery goes on where the older seed's checkpoint is parked. */
  lemma AbandonedSeedFallsBack(w: World, p: Principal, r: NodeResult)
    requires w.driver.Idle? && w.run.status == Running && w.checkpoint.Saved? && w.checkpoint.next.Some?
    ensures var w' := Execute(w, [Deliver(Some(p)), Enter(false), RunNode(r)] + [Crash, Deliver(None), Enter(true)]);
      var n := w.checkpoint.next.value;
      && w'.history == w.history + [Visit(Understand, Seeded)]
      && w'.driver == Invoking(Resumed(n), w.checkpoint.state, n, None)
  {
    hide Execute;
    ExecuteThree(w, Deliver(Some(p)), Enter(false), RunNode(r));
    ExecuteConcat(w, [Deliver(Some(p)), Enter(false), RunNode(r)], [Crash, Deliver(None), Enter(true)]);
    var seeded := Execute(w, [Deliver(Some(p)), Enter(false), RunNode(r)]);
    ExecuteThree(seeded, Crash, Deliver(None), Enter(true));
  }
}
