/**
 One assessment run under at-least-once delivery: a run row, a checkpoint, an assessment and
 the single live driver, cut into the transactions the runner commits.  A crash may fall
 between any two of them.
 */
module RunRecovery {
  import opened Basics
  import opened PipelineGraph
  import L = AssessmentLifecycle

  datatype RunStatus = Queued | Running | Interrupted | Completed | Failed | Cancelled

  predicate IsTerminal(s: RunStatus) {
    s in {Completed, Failed, Cancelled}
  }

  datatype Cause = Misconfigured | NodeError(code: int) | RefusedTransition | EmptyInput

  datatype RunRow = RunRow(
    status: RunStatus,
    currentNode: Option<Node>,
    approvalInterrupt: bool,
    pendingApproval: Option<nat>,
    resumedCount: nat,
    failure: Option<Cause>)

  /** What the checkpointer holds for the run's thread: channels, and the node to run next. */
  datatype Checkpoint = NoCheckpoint | Saved(state: GraphState, next: Option<Node>)

  /** How an invocation of the graph was started. */
  datatype Entry = Seeded | Resumed(from: Node)

  datatype Visit = Visit(node: Node, entry: Entry)

  datatype Event = RunCompleted(status: L.AssessmentStatus) | RunFailed(cause: Cause)

  /** Terminal events are sent by the runner that settles a run, and by the worker's teardown. */
  datatype Sender = Runner | Teardown

  datatype Notice = Notice(sender: Sender, event: Event)

  /** Where the live driver stands; `Idle` means that no worker drives the run. */
  datatype Driver =
    | Idle
    | Inspected(status: RunStatus, principal: Option<Principal>)
    | Invoking(entry: Entry, state: GraphState, next: Node, principal: Option<Principal>)
    | Executed(entry: Entry, result: GraphState, successor: Option<Node>, principal: Option<Principal>)
    | Settling
    | Failing(cause: Cause, principal: Option<Principal>)
    | Emitting(notice: Notice)

  datatype World = World(
    run: RunRow,
    checkpoint: Checkpoint,
    assessment: L.AssessmentStatus,
    depth: Depth,
    driver: Driver,
    history: seq<Visit>,
    events: seq<Notice>,
    alerts: seq<Principal>,
    everInterrupted: bool)

  /** What one execution of a node does: it may commit moves of the assessment, one after the other,
      and write the run's node cursor, and then it either returns a partial update of the channels
      or raises. */
  datatype Delta = Delta(selected: seq<nat>, approvalId: Option<nat>, product: int)

  datatype NodeResult =
    | Returned(delta: Delta, moves: seq<L.AssessmentStatus>, cursor: bool)
    | Raised(code: int, moves: seq<L.AssessmentStatus>, cursor: bool)

  datatype Action =
    | Deliver(principal: Option<Principal>)
    | Enter(readable: bool)
    | SaveInput
    | RunNode(result: NodeResult)
    | DieInNode(moves: seq<L.AssessmentStatus>, cursor: bool)
    | SaveNode
    | Settle
    | CommitFailure(stateReadable: bool)
    | Emit
    | Crash
    | RequestCancel
    | CancelByWorker
    | SettleOrphan

  function InitialRow(): RunRow {
    RunRow(Queued, None, false, None, 0, None)
  }

  function InitialWorld(depth: Depth): World {
    World(InitialRow(), NoCheckpoint, L.Created, depth, Idle, [], [], [], false)
  }

  function Seed(p: Principal, depth: Depth): GraphState {
    GraphState(p, Some(depth), [], None, 0)
  }

  /** Only discovery writes the selection and only the approval node writes the approval id. */
  function Merge(n: Node, s: GraphState, d: Delta): GraphState {
    match n
    case DiscoverAssets => s.(selected := d.selected, product := d.product)
    case RequestApproval => s.(approvalId := d.approvalId, product := d.product)
    case _ => s.(product := d.product)
  }

  // ----- the transactions -----------------------------------------------------

  /** Read the run's status; a terminal run is reported as it stands and nothing is driven. */
  function ApplyDeliver(w: World, p: Option<Principal>): World
    requires w.driver.Idle?
  {
    if IsTerminal(w.run.status) then w else w.(driver := Inspected(w.run.status, p))
  }

  function HasCheckpoint(w: World, status: RunStatus, readable: bool): bool {
    if status == Running then readable && w.checkpoint.Saved? else status == Interrupted
  }

  function EnteredRow(r: RunRow, status: RunStatus, seeding: bool): RunRow {
    var r1 := r.(status := Running);
    var r2 := if status == Queued then r1
              else r1.(resumedCount := r1.resumedCount + 1, approvalInterrupt := false, pendingApproval := None);
    if seeding then r2.(currentNode := None) else r2
  }

  function Invocation(w: World, seeding: bool, p: Option<Principal>): Driver {
    if seeding && p.Some? then Invoking(Seeded, Seed(p.value, w.depth), Understand, p)
    else
      match w.checkpoint
      case NoCheckpoint => Failing(EmptyInput, p)
      case Saved(s, None) => Settling
      case Saved(s, Some(n)) => Invoking(Resumed(n), s, n, p)
  }

  function ApplyEnter(w: World, readable: bool): World
    requires w.driver.Inspected?
  {
    var Inspected(status, p) := w.driver;
    var seeding := !HasCheckpoint(w, status, readable);
    if seeding && p.None? then w.(driver := Failing(Misconfigured, p))
    else if IsTerminal(w.run.status) then w.(driver := Idle)
    else w.(run := EnteredRow(w.run, status, seeding), driver := Invocation(w, seeding, p))
  }

  /** Where the moves lead, up to the first one that is refused, and whether all were permitted. */
  function Committed(s: L.AssessmentStatus, moves: seq<L.AssessmentStatus>): (L.AssessmentStatus, bool)
    decreases |moves|
  {
    if moves == [] then (s, true)
    else if L.CanTransition(s, moves[0]) then Committed(moves[0], moves[1..])
    else (s, false)
  }

  /** The marks a node leaves behind whether or not it gets to its end. */
  function Visited(w: World, moves: seq<L.AssessmentStatus>, cursor: bool): World
    requires w.driver.Invoking?
  {
    w.(history := w.history + [Visit(w.driver.next, w.driver.entry)],
       run := if cursor then w.run.(currentNode := Some(w.driver.next)) else w.run,
       assessment := Committed(w.assessment, moves).0)
  }

  function ApplyRunNode(w: World, r: NodeResult): World
    requires w.driver.Invoking?
  {
    var Invoking(e, s, n, p) := w.driver;
    var w1 := Visited(w, r.moves, r.cursor);
    if !Committed(w.assessment, r.moves).1 then w1.(driver := Failing(RefusedTransition, p))
    else
      match r
      case Raised(code, _, _) => w1.(driver := Failing(NodeError(code), p))
      case Returned(delta, _, _) =>
        var s' := Merge(n, s, delta);
        w1.(driver := Executed(e, s', Successor(n, s'), p))
  }

  /** The worker dies inside a node, between its commits or before its end. */
  function ApplyDieInNode(w: World, moves: seq<L.AssessmentStatus>, cursor: bool): World
    requires w.driver.Invoking?
  {
    Visited(w, moves, cursor).(driver := Idle)
  }

  /** Write the checkpoint, then go on, unless the graph has ended or reached its gate. */
  function ApplySaveNode(w: World): World
    requires w.driver.Executed?
  {
    var Executed(e, s, next, p) := w.driver;
    w.(checkpoint := Saved(s, next),
       driver := if next == None || next == Some(GATE) then Settling else Invoking(e, s, next.value, p))
  }

  function ApplySettle(w: World): World
    requires w.driver.Settling?
  {
    match w.checkpoint
    case Saved(s, Some(n)) =>
      w.(run := w.run.(status := Interrupted, approvalInterrupt := true,
                       pendingApproval := s.approvalId, currentNode := Some(n)),
         driver := Idle, everInterrupted := true)
    case _ =>
      w.(run := w.run.(status := Completed, currentNode := None),
         driver := Emitting(Notice(Runner, RunCompleted(w.assessment))))
  }

  /** Who is told of a failure: the delivery's principal, else the one in the checkpoint. */
  function Actor(p: Option<Principal>, c: Checkpoint, readable: bool): Option<Principal> {
    if p.Some? then p
    else if readable && c.Saved? then Some(c.state.principal)
    else None
  }

  function ApplyCommitFailure(w: World, readable: bool): World
    requires w.driver.Failing?
  {
    var Failing(cause, p) := w.driver;
    var actor := Actor(p, w.checkpoint, readable);
    w.(run := w.run.(status := Failed, failure := Some(cause)),
       assessment := if L.IsTerminal(w.assessment) then w.assessment else L.Failed,
       alerts := if actor.Some? then w.alerts + [actor.value] else w.alerts,
       driver := Emitting(Notice(Runner, RunFailed(cause))))
  }

  /** An operator asks for cancellation, at any time; a finished assessment refuses. */
  function ApplyRequestCancel(w: World): World {
    if L.CanTransition(w.assessment, L.Cancelling) then w.(assessment := L.Cancelling) else w
  }

  /** The worker's teardown: it stops the driver, ends a cancelling assessment and a live run, and
      then announces the cancellation, whatever it found. */
  function ApplyCancel(w: World): World {
    w.(run := if IsTerminal(w.run.status) then w.run else w.run.(status := Cancelled),
       assessment := if w.assessment == L.Cancelling then L.Cancelled else w.assessment,
       driver := Emitting(Notice(Teardown, RunCompleted(L.Cancelled))))
  }

  /** A delivery that finds the assessment ended and the run not: the worker ends the run. */
  function ApplySettleOrphan(w: World): World {
    if w.driver.Idle? && L.IsTerminal(w.assessment) && !IsTerminal(w.run.status)
    then w.(run := w.run.(status := Cancelled)) else w
  }

  /** One step; an action whose driver position does not match leaves the world alone. */
  function Apply(w: World, a: Action): World {
    match a
    case Deliver(p) => if w.driver.Idle? then ApplyDeliver(w, p) else w
    case Enter(readable) => if w.driver.Inspected? then ApplyEnter(w, readable) else w
    case SaveInput =>
      if w.driver.Invoking? && w.driver.entry.Seeded? && w.driver.next == Understand
      then w.(checkpoint := Saved(w.driver.state, Some(Understand))) else w
    case RunNode(r) => if w.driver.Invoking? then ApplyRunNode(w, r) else w
    case DieInNode(moves, cursor) => if w.driver.Invoking? then ApplyDieInNode(w, moves, cursor) else w
    case SaveNode => if w.driver.Executed? then ApplySaveNode(w) else w
    case Settle => if w.driver.Settling? then ApplySettle(w) else w
    case CommitFailure(readable) => if w.driver.Failing? then ApplyCommitFailure(w, readable) else w
    case Emit => if w.driver.Emitting? then w.(events := w.events + [w.driver.notice], driver := Idle) else w
    case Crash => w.(driver := Idle)
    case RequestCancel => ApplyRequestCancel(w)
    case CancelByWorker => ApplyCancel(w)
    case SettleOrphan => ApplySettleOrphan(w)
  }

  function Execute(w: World, actions: seq<Action>): World
    decreases |actions|
  {
    if actions == [] then w else Execute(Apply(w, actions[0]), actions[1..])
  }

  lemma {:induction false} ExecuteConcat(w: World, a: seq<Action>, b: seq<Action>)
    ensures Execute(w, a + b) == Execute(Execute(w, a), b)
    decreases |a|
  {
    if a == [] {
      assert a + b == b;
    } else {
      assert (a + b)[0] == a[0] && (a + b)[1..] == a[1..] + b;
      ExecuteConcat(Apply(w, a[0]), a[1..], b);
    }
  }

  lemma ExecuteNothing(w: World)
    ensures Execute(w, []) == w
  {
  }

  lemma ExecuteOne(w: World, a: Action)
    ensures Execute(w, [a]) == Apply(w, a)
  {
    assert Execute(Apply(w, a), []) == Apply(w, a);
  }

  lemma ExecuteSnoc(w: World, actions: seq<Action>, a: Action)
    ensures Execute(w, actions + [a]) == Apply(Execute(w, actions), a)
  {
    ExecuteConcat(w, actions, [a]);
  }

  // ----- what every step keeps, whatever is read and whoever crashes --------------

  predicate ApprovalRequested(h: seq<Visit>) {
    exists v <- h :: v.node == RequestApproval
  }

  /** Every visit to the gated node belongs to an invocation resumed at that node, and an
      approval was requested earlier. */
  ghost predicate GateRespected(h: seq<Visit>) {
    forall i :: 0 <= i < |h| && h[i].node == GATE ==>
      h[i].entry == Resumed(GATE) && ApprovalRequested(h[..i])
  }

  ghost predicate Live(w: World) {
    match w.driver
    case Idle => true
    case Inspected(status, _) => !IsTerminal(w.run.status) && status == w.run.status
    case Invoking(e, s, n, _) =>
      && w.run.status == Running
      && (n == GATE ==> e == Resumed(GATE) && ApprovalRequested(w.history))
    case Executed(_, _, next, _) =>
      && w.run.status == Running
      && (next == Some(GATE) ==> ApprovalRequested(w.history))
    case Settling => w.run.status == Running
    case Failing(_, _) => !IsTerminal(w.run.status)
    case Emitting(n) => IsTerminal(w.run.status) && (n.sender == Runner ==> w.events == [])
  }

  ghost predicate Safe(w: World) {
    && Live(w)
    && GateRespected(w.history)
    && (w.checkpoint.Saved? && w.checkpoint.next == Some(GATE) ==> ApprovalRequested(w.history))
    && (forall i :: 1 <= i < |w.events| ==> w.events[i].sender == Teardown)
    && |w.alerts| <= 1
    && (!IsTerminal(w.run.status) ==> w.events == [] && w.alerts == [])
    && (w.run.status == Failed <==> w.run.failure.Some?)
    && (w.run.status == Failed ==> L.IsTerminal(w.assessment))
  }

  lemma ExtendedHistory(h: seq<Visit>, v: Visit)
    requires GateRespected(h)
    requires v.node == GATE ==> v.entry == Resumed(GATE) && ApprovalRequested(h)
    ensures GateRespected(h + [v])
    ensures ApprovalRequested(h) || v.node == RequestApproval ==> ApprovalRequested(h + [v])
  {
    forall i | 0 <= i < |h + [v]| && (h + [v])[i].node == GATE
      ensures (h + [v])[i].entry == Resumed(GATE) && ApprovalRequested((h + [v])[..i])
    {
      if i < |h| {
        assert (h + [v])[..i] == h[..i];
      } else {
        assert (h + [v])[..i] == h;
      }
    }
    if ApprovalRequested(h) {
      var u :| u in h && u.node == RequestApproval;
      assert u in h + [v];
    } else if v.node == RequestApproval {
      assert v in h + [v];
    }
  }

  lemma SafeRunNode(w: World, r: NodeResult)
    requires Safe(w) && w.driver.Invoking?
    ensures Safe(ApplyRunNode(w, r))
  {
    hide GateRespected, ApprovalRequested, Merge, Committed;
    ExtendedHistory(w.history, Visit(w.driver.next, w.driver.entry));
  }

  lemma SafeDieInNode(w: World, moves: seq<L.AssessmentStatus>, cursor: bool)
    requires Safe(w) && w.driver.Invoking?
    ensures Safe(ApplyDieInNode(w, moves, cursor))
  {
    hide GateRespected, ApprovalRequested, Committed;
    ExtendedHistory(w.history, Visit(w.driver.next, w.driver.entry));
  }

  lemma SafeStep(w: World, a: Action)
    requires Safe(w)
    ensures Safe(Apply(w, a))
  {
    hide GateRespected, ApprovalRequested, ApplyRunNode, ApplyDieInNode;
    match a
    case Deliver(_) =>
    case Enter(_) =>
    case SaveInput =>
    case RunNode(r) =>
      if w.driver.Invoking? {
        SafeRunNode(w, r);
      }
    case DieInNode(moves, cursor) =>
      if w.driver.Invoking? {
        SafeDieInNode(w, moves, cursor);
      }
    case SaveNode =>
    case Settle =>
    case CommitFailure(_) =>
    case Emit =>
    case Crash =>
    case RequestCancel =>
    case CancelByWorker =>
    case SettleOrphan =>
  }

  lemma {:induction false} SafeAlways(w: World, actions: seq<Action>)
    requires Safe(w)
    ensures Safe(Execute(w, actions))
    decreases |actions|
  {
    if actions != [] {
      SafeStep(w, actions[0]);
      SafeAlways(Apply(w, actions[0]), actions[1..]);
    }
  }

  /** The gated node is only ever run by a resume of a checkpoint parked at it, with the
      approval requested before.  Holds for every run, even when checkpoints cannot be read. */
  lemma GateOnlyPassedByResume(depth: Depth, actions: seq<Action>, i: nat)
    requires i < |Execute(InitialWorld(depth), actions).history|
    requires Execute(InitialWorld(depth), actions).history[i].node == ExecuteScanners
    ensures var h := Execute(InitialWorld(depth), actions).history;
      && h[i].entry == Resumed(ExecuteScanners)
      && exists j :: 0 <= j < i && h[j].node == RequestApproval
  {
    SafeAlways(InitialWorld(depth), actions);
    var h := Execute(InitialWorld(depth), actions).history;
    assert ApprovalRequested(h[..i]);
    var v :| v in h[..i] && v.node == RequestApproval;
    var j :| 0 <= j < i && h[..i][j] == v;
    assert h[j].node == RequestApproval;
  }

  // ----- a terminal run stays as it is --------------------------------------------

  /** Deliveries, crashes and cancellations leave a terminal run's row, checkpoint, history and
      alerts alone.  Its assessment can only be moved by a cancellation. */
  lemma {:induction false} TerminalIsAbsorbing(w: World, actions: seq<Action>)
    requires Safe(w) && IsTerminal(w.run.status)
    ensures var w' := Execute(w, actions);
      && w'.run == w.run
      && w'.checkpoint == w.checkpoint
      && w'.history == w.history
      && w'.alerts == w.alerts
      && (RequestCancel !in actions && CancelByWorker !in actions ==> w'.assessment == w.assessment)
      && (w.driver.Idle? && CancelByWorker !in actions ==> w' == w.(assessment := w'.assessment))
    decreases |actions|
  {
    hide GateRespected, ApprovalRequested;
    if actions != [] {
      SafeStep(w, actions[0]);
      TerminalIsAbsorbing(Apply(w, actions[0]), actions[1..]);
    }
  }

  // ----- terminal events ------------------------------------------------------------

  /** What a listener is told fits how the run ended. */
  predicate Reports(n: Notice, r: RunRow) {
    match n
    case Notice(Runner, RunCompleted(_)) => r.status == Completed
    case Notice(Runner, RunFailed(cause)) => r.status == Failed && r.failure == Some(cause)
    case Notice(Teardown, _) => r.status == Cancelled
  }

  ghost predicate EventMatches(w: World) {
    && (w.driver.Emitting? && w.driver.notice.sender == Runner ==> Reports(w.driver.notice, w.run))
    && (forall n <- w.events :: n.sender == Runner ==> Reports(n, w.run))
  }

  lemma {:induction false} EventsMatchRow(w: World, actions: seq<Action>)
    requires Safe(w) && EventMatches(w)
    ensures EventMatches(Execute(w, actions))
    decreases |actions|
  {
    if actions != [] {
      var w1 := Apply(w, actions[0]);
      SafeStep(w, actions[0]);
      MatchStep(w, actions[0]);
      EventsMatchRow(w1, actions[1..]);
    }
  }

  lemma MatchStep(w: World, a: Action)
    requires Safe(w) && EventMatches(w)
    ensures EventMatches(Apply(w, a))
    ensures IsTerminal(w.run.status) ==> Apply(w, a).run == w.run
  {
    hide GateRespected, ApprovalRequested, ApplyRunNode;
    if w.driver.Invoking? && a.RunNode? {
      RunNodeTellsNobody(w, a.result);
    }
  }

  lemma RunNodeTellsNobody(w: World, r: NodeResult)
    requires w.driver.Invoking?
    ensures var w' := ApplyRunNode(w, r);
      w'.events == w.events && !w'.driver.Emitting? && w'.run.status == w.run.status
  {
  }

  /** Over a run's whole life the runner sends at most one terminal event and raises at most one
      failure alert, none while the run is live; its event comes before any other and reports how
      the run ended. */
  lemma RunnerReportsOnce(depth: Depth, actions: seq<Action>)
    ensures var w := Execute(InitialWorld(depth), actions);
      && |w.alerts| <= 1
      && (!IsTerminal(w.run.status) ==> w.events == [] && w.alerts == [])
      && (forall i :: 0 <= i < |w.events| && w.events[i].sender == Runner ==> i == 0 && Reports(w.events[i], w.run))
  {
    SafeAlways(InitialWorld(depth), actions);
    EventsMatchRow(InitialWorld(depth), actions);
  }

  predicate OneTruthfulEvent(w: World) {
    |w.events| <= 1 && forall n <- w.events :: Reports(n, w.run)
  }

  /** A teardown that starts now comes too late: the run ended by itself or was reported already. */
  predicate TooLate(w: World) {
    w.run.status in {Completed, Failed} || w.events != []
  }

  /** What was about to be announced is announced before a crash. */
  predicate Announced(actions: seq<Action>)
    decreases |actions|
  {
    actions != [] && (actions[0] == Emit || (actions[0] != Crash && Announced(actions[1..])))
  }

  ghost predicate LateTeardownAnnounced(w: World, actions: seq<Action>)
    decreases |actions|
  {
    actions != [] &&
    ((actions[0] == CancelByWorker && TooLate(w) && Announced(actions[1..]))
     || LateTeardownAnnounced(Apply(w, actions[0]), actions[1..]))
  }

  predicate LatePending(w: World) {
    w.driver.Emitting? && w.driver.notice.sender == Teardown && TooLate(w)
  }

  lemma LateStep(w: World, a: Action)
    requires Safe(w) && EventMatches(w)
    ensures OneTruthfulEvent(Apply(w, a)) <==> OneTruthfulEvent(w) && !(a == Emit && LatePending(w))
    ensures LatePending(Apply(w, a)) <==>
            (if a == CancelByWorker then TooLate(w) else LatePending(w) && a != Emit && a != Crash)
  {
    hide GateRespected, ApprovalRequested, ApplyRunNode;
    MatchStep(w, a);
    if w.driver.Invoking? && a.RunNode? {
      RunNodeTellsNobody(w, a.result);
    }
    if a == Emit && w.driver.Emitting? {
      EmitStep(w);
    }
  }

  lemma EmitStep(w: World)
    requires Safe(w) && EventMatches(w) && w.driver.Emitting?
    ensures OneTruthfulEvent(Apply(w, Emit)) <==> OneTruthfulEvent(w) && !LatePending(w)
  {
    hide GateRespected, ApprovalRequested;
    var n := w.driver.notice;
    assert n in w.events + [n];
    assert forall m <- w.events :: m in w.events + [n];
  }

  lemma {:induction false} OneEventFrom(w: World, actions: seq<Action>)
    requires Safe(w) && EventMatches(w)
    ensures OneTruthfulEvent(Execute(w, actions)) <==>
            OneTruthfulEvent(w) && !(LatePending(w) && Announced(actions)) && !LateTeardownAnnounced(w, actions)
    decreases |actions|
  {
    hide Safe, EventMatches, OneTruthfulEvent, TooLate, Apply;
    if actions != [] {
      SafeStep(w, actions[0]);
      MatchStep(w, actions[0]);
      LateStep(w, actions[0]);
      OneEventFrom(Apply(w, actions[0]), actions[1..]);
    }
  }

  /** Counting the teardown's events too, a run is reported once and truthfully exactly when no
      teardown announces itself that started on a run completed, failed or already reported. */
  lemma OneEventUnlessTeardownLate(depth: Depth, actions: seq<Action>)
    ensures OneTruthfulEvent(Execute(InitialWorld(depth), actions))
            <==> !LateTeardownAnnounced(InitialWorld(depth), actions)
  {
    OneEventFrom(InitialWorld(depth), actions);
  }

  /** A late teardown happens: a cancellation makes a node's move be refused, the run fails and says
      so, and the teardown announces the same run as cancelled. */
  lemma SecondEventHappens(depth: Depth, p: Principal) returns (actions: seq<Action>)
    ensures var w := Execute(InitialWorld(depth), actions);
      && w.run.status == Failed
      && w.events == [Notice(Runner, RunFailed(RefusedTransition)), Notice(Teardown, RunCompleted(L.Cancelled))]
  {
    hide Execute, ApplyEnter, ApplyRunNode;
    var init, refused := InitialWorld(depth), RunNode(Returned(Delta([], None, 0), [L.Planning], true));
    var started := [Deliver(Some(p)), Enter(true), RequestCancel];
    var failed := [refused, CommitFailure(true), Emit];
    var late := [CancelByWorker, Emit];
    var w := StartCancelled(depth, p);
    RefusedMoveFails(w, failed[0].result);
    ExecuteThree(w, failed[0], failed[1], failed[2]);
    ExecuteTwo(Execute(w, failed), late[0], late[1]);
    ExecuteConcat(init, started, failed);
    ExecuteConcat(init, started + failed, late);
    actions := started + failed + late;
  }

  lemma StartCancelled(depth: Depth, p: Principal) returns (w: World)
    ensures w == Execute(InitialWorld(depth), [Deliver(Some(p)), Enter(true), RequestCancel])
    ensures w.driver.Invoking? && w.assessment == L.Cancelling && w.run.status == Running
    ensures w.run.failure == None && w.events == []
  {
    ExecuteThree(InitialWorld(depth), Deliver(Some(p)), Enter(true), RequestCancel);
    w := Apply(Apply(Apply(InitialWorld(depth), Deliver(Some(p))), Enter(true)), RequestCancel);
  }

  lemma RefusedMoveFails(w: World, r: NodeResult)
    requires w.driver.Invoking? && r.moves != [] && !L.CanTransition(w.assessment, r.moves[0])
    ensures var w' := ApplyRunNode(w, r);
      && w'.driver == Failing(RefusedTransition, w.driver.principal)
      && w'.events == w.events && w'.assessment == w.assessment && w'.run.failure == w.run.failure
  {
  }

  lemma ExecuteTwo(w: World, a: Action, b: Action)
    ensures Execute(w, [a, b]) == Apply(Apply(w, a), b)
  {
    hide Apply;
    assert [a, b] == [a] + [b];
    ExecuteSnoc(w, [a], b);
    ExecuteOne(w, a);
  }

  lemma ExecuteThree(w: World, a: Action, b: Action, c: Action)
    ensures Execute(w, [a, b, c]) == Apply(Apply(Apply(w, a), b), c)
  {
    hide Apply;
    assert [a, b, c] == [a, b] + [c];
    ExecuteSnoc(w, [a, b], c);
    ExecuteTwo(w, a, b);
  }

  /** Every way from `s` to `t` along listed moves, as far as it can be told from its ends. */
  predicate Forward(s: L.AssessmentStatus, t: L.AssessmentStatus) {
    && L.Progress(s) <= L.Progress(t)
    && (L.Progress(s) == L.Progress(t) ==> s == t)
    && (L.IsTerminal(s) ==> t == s)
    && (s == L.Cancelling ==> t in {L.Cancelling, L.Cancelled, L.Failed})
  }

  lemma {:induction false} CommittedForward(s: L.AssessmentStatus, moves: seq<L.AssessmentStatus>)
    ensures Forward(s, Committed(s, moves).0)
    decreases |moves|
  {
    if moves != [] && L.CanTransition(s, moves[0]) {
      CommittedForward(moves[0], moves[1..]);
    }
  }

  lemma AssessmentStep(w: World, a: Action)
    ensures Forward(w.assessment, Apply(w, a).assessment)
  {
    hide Committed;
    if w.driver.Invoking? && a.RunNode? {
      CommittedForward(w.assessment, a.result.moves);
    }
    if w.driver.Invoking? && a.DieInNode? {
      CommittedForward(w.assessment, a.moves);
    }
  }

  /** Every move any step makes, the unconditional ones of a failure and of a cancellation too,
      goes along the listed ones: over a whole run the assessment only moves forward, and it stays
      where it ended. */
  lemma {:induction false} AssessmentOnlyMovesForward(w: World, actions: seq<Action>)
    ensures var w' := Execute(w, actions);
      && L.Progress(w.assessment) <= L.Progress(w'.assessment)
      && (L.Progress(w.assessment) == L.Progress(w'.assessment) ==> w.assessment == w'.assessment)
      && (L.IsTerminal(w.assessment) ==> w'.assessment == w.assessment)
    decreases |actions|
  {
    hide Apply;
    if actions != [] {
      AssessmentStep(w, actions[0]);
      AssessmentOnlyMovesForward(Apply(w, actions[0]), actions[1..]);
    }
  }

  /** Once cancellation was asked for, nothing a node or the runner does brings the assessment back
      to work or completes it: it stays cancelling until it is cancelled or failed. */
  lemma {:induction false} CancellationIsNeverUndone(w: World, actions: seq<Action>)
    requires w.assessment in {L.Cancelling, L.Cancelled, L.Failed}
    ensures Execute(w, actions).assessment in {L.Cancelling, L.Cancelled, L.Failed}
    decreases |actions|
  {
    hide Apply;
    if actions != [] {
      AssessmentStep(w, actions[0]);
      CancellationIsNeverUndone(Apply(w, actions[0]), actions[1..]);
    }
  }

  /** The worker's teardown ends a cancelling run for good: whatever is delivered afterwards, the
      run and its assessment stay ended, no further node is executed, and exactly the teardown's
      own event is added. */
  lemma TeardownEndsTheRun(w: World, actions: seq<Action>)
    requires Safe(w) && w.assessment == L.Cancelling && CancelByWorker !in actions
    ensures var w' := Execute(w, [CancelByWorker, Emit] + actions);
      && IsTerminal(w'.run.status) && w'.assessment == L.Cancelled && w'.driver.Idle?
      && (!IsTerminal(w.run.status) ==> w'.run.status == Cancelled)
      && w'.history == w.history && w'.alerts == w.alerts
      && w'.events == w.events + [Notice(Teardown, RunCompleted(L.Cancelled))]
  {
    hide GateRespected, ApprovalRequested;
    var stopped := Apply(w, CancelByWorker);
    var told := Apply(stopped, Emit);
    SafeStep(w, CancelByWorker);
    SafeStep(stopped, Emit);
    ExecuteTwo(w, CancelByWorker, Emit);
    ExecuteConcat(w, [CancelByWorker, Emit], actions);
    TerminalIsAbsorbing(told, actions);
    AssessmentOnlyMovesForward(told, actions);
  }

  // ----- runs that end without a word -----------------------------------------------------

  /** The run has ended, nobody drives it, and no terminal event was ever sent. */
  predicate Silent(w: World) {
    w.driver.Idle? && IsTerminal(w.run.status) && w.events == []
  }

  /** The step ends a live run whose assessment has ended, or loses the first terminal event. */
  predicate Silences(w: World, a: Action) {
    || (a == SettleOrphan && w.driver.Idle? && L.IsTerminal(w.assessment) && !IsTerminal(w.run.status))
    || (a == Crash && w.driver.Emitting? && w.events == [])
  }

  predicate SilencedForGood(w: World, actions: seq<Action>)
    decreases |actions|
  {
    actions != [] &&
    ((Silences(w, actions[0]) && CancelByWorker !in actions[1..])
     || SilencedForGood(Apply(w, actions[0]), actions[1..]))
  }

  lemma SilentStep(w: World, a: Action)
    requires Safe(w)
    ensures Silent(Apply(w, a)) <==> (Silent(w) && a != CancelByWorker) || Silences(w, a)
  {
    hide GateRespected, ApprovalRequested, ApplyRunNode;
    if w.driver.Invoking? && a.RunNode? {
      RunNodeTellsNobody(w, a.result);
    }
  }

  lemma {:induction false} SilentFrom(w: World, actions: seq<Action>)
    requires Safe(w)
    ensures Silent(Execute(w, actions))
            <==> (Silent(w) && CancelByWorker !in actions) || SilencedForGood(w, actions)
    decreases |actions|
  {
    hide Safe, Silent, Silences, Apply;
    if actions != [] {
      assert CancelByWorker in actions <==> actions[0] == CancelByWorker || CancelByWorker in actions[1..];
      SafeStep(w, actions[0]);
      SilentStep(w, actions[0]);
      SilentFrom(Apply(w, actions[0]), actions[1..]);
    }
  }

  /** A run has ended without any terminal event exactly when the worker recorded it as cancelled behind
      an ended assessment, or a crash lost its first event, and no teardown came afterwards. */
  lemma EndsSilentIff(depth: Depth, actions: seq<Action>)
    ensures Silent(Execute(InitialWorld(depth), actions)) <==> SilencedForGood(InitialWorld(depth), actions)
  {
    SilentFrom(InitialWorld(depth), actions);
  }

  /** A node that brings the assessment to its end and dies before the run is settled leaves a run
      that the next delivery records as cancelled: no terminal event is ever sent for it. */
  lemma CompletionCanGoUnreported(w: World, actions: seq<Action>)
    requires Safe(w) && L.IsTerminal(w.assessment) && !IsTerminal(w.run.status)
    requires CancelByWorker !in actions
    ensures var w' := Execute(w, [Crash, SettleOrphan] + actions);
      w'.run.status == Cancelled && w'.assessment == w.assessment && w'.events == []
  {
    hide GateRespected, ApprovalRequested;
    var settled := Apply(Apply(w, Crash), SettleOrphan);
    SafeStep(w, Crash);
    SafeStep(Apply(w, Crash), SettleOrphan);
    ExecuteTwo(w, Crash, SettleOrphan);
    ExecuteConcat(w, [Crash, SettleOrphan], actions);
    TerminalIsAbsorbing(settled, actions);
    AssessmentOnlyMovesForward(settled, actions);
  }

  // ----- what the run row says ------------------------------------------------------

  /** The row's bookkeeping agrees with what happened: an interrupted run points at its approval
      and at the node it will run next, a queued, running, completed or failed run points at no
      approval, and a completed run at no node.  A cancelled row is left as it was found. */
  ghost predicate RowTellsTruth(w: World) {
    && (w.run.status == Interrupted ==>
         && w.run.approvalInterrupt && w.checkpoint.Saved? && w.checkpoint.next.Some?
         && w.run.currentNode == w.checkpoint.next
         && w.run.pendingApproval == w.checkpoint.state.approvalId)
    && (w.run.status in {Queued, Running, Completed, Failed} ==>
         !w.run.approvalInterrupt && w.run.pendingApproval == None)
    && (w.run.status == Queued ==> w.run.resumedCount == 0 && w.history == [])
    && (w.run.status == Completed ==> w.run.currentNode == None)
    && match w.driver
       case Inspected(status, _) => status == w.run.status && !IsTerminal(status)
       case Failing(_, _) => w.run.status in {Queued, Running}
       case Emitting(_) => IsTerminal(w.run.status)
       case Idle => true
       case _ => w.run.status == Running
  }

  /** A cancelled run keeps pointing at an approval exactly when it was cancelled while it waited. */
  lemma CancelledKeepsApprovalIff(w: World, a: Action)
    requires RowTellsTruth(w) && !IsTerminal(w.run.status) && Apply(w, a).run.status == Cancelled
    ensures Apply(w, a).run.approvalInterrupt <==> w.run.status == Interrupted
    ensures Apply(w, a).run.pendingApproval == w.run.pendingApproval
  {
    assert a == CancelByWorker || a == SettleOrphan;
  }

  /** The step enters the run other than for the first time. */
  predicate Resumes(w: World, a: Action) {
    var w' := Apply(w, a);
    && w.driver.Inspected? && w.driver.status != Queued
    && w'.run.status == Running && !w'.driver.Idle? && !w'.driver.Inspected?
    && w'.driver != Failing(Misconfigured, w.driver.principal)
  }

  function Resumptions(w: World, actions: seq<Action>): nat
    decreases |actions|
  {
    if actions == [] then 0
    else (if Resumes(w, actions[0]) then 1 else 0) + Resumptions(Apply(w, actions[0]), actions[1..])
  }

  lemma CountStep(w: World, a: Action)
    requires RowTellsTruth(w)
    ensures Apply(w, a).run.resumedCount == w.run.resumedCount + if Resumes(w, a) then 1 else 0
  {
    match a
    case Enter(_) =>
    case _ =>
  }

  lemma RowStep(w: World, a: Action)
    requires RowTellsTruth(w)
    ensures RowTellsTruth(Apply(w, a))
  {
    match a
    case Deliver(_) =>
    case Enter(_) =>
    case SaveInput =>
    case RunNode(r) =>
    case DieInNode(_, _) =>
    case SaveNode =>
    case Settle =>
    case CommitFailure(_) =>
    case Emit =>
    case Crash =>
    case RequestCancel =>
    case CancelByWorker =>
    case SettleOrphan =>
  }

  lemma {:induction false} RowStaysTruthful(w: World, actions: seq<Action>)
    requires RowTellsTruth(w)
    ensures var w' := Execute(w, actions);
      RowTellsTruth(w') && w'.run.resumedCount == w.run.resumedCount + Resumptions(w, actions)
    decreases |actions|
  {
    hide RowTellsTruth, Apply, Resumes;
    if actions != [] {
      RowStep(w, actions[0]);
      CountStep(w, actions[0]);
      RowStaysTruthful(Apply(w, actions[0]), actions[1..]);
    }
  }

  /** A raising node stays named on the failed run's row, and its error, or the refusal of a move it
      asked for before, is the one that is recorded and reported. */
  lemma RaisingNodeIsNamed(w: World, r: NodeResult, readable: bool)
    requires Safe(w) && w.driver.Invoking? && r.Raised?
    ensures var w' := Execute(w, [RunNode(r), CommitFailure(readable), Emit]);
      var cause := if Committed(w.assessment, r.moves).1 then NodeError(r.code) else RefusedTransition;
      && w'.run.status == Failed
      && w'.run.currentNode == (if r.cursor then Some(w.driver.next) else w.run.currentNode)
      && w'.run.failure == Some(cause) && w'.events == [Notice(Runner, RunFailed(cause))]
      && w'.checkpoint == w.checkpoint && L.IsTerminal(w'.assessment)
  {
    ExecuteThree(w, RunNode(r), CommitFailure(readable), Emit);
  }

  // ----- who is told --------------------------------------------------------------------

  ghost predicate KnowsOnly(w: World, p: Principal) {
    && (w.checkpoint.Saved? ==> w.checkpoint.state.principal == p)
    && (forall q <- w.alerts :: q == p)
    && match w.driver
       case Inspected(_, q) => q in {None, Some(p)}
       case Invoking(_, s, _, q) => s.principal == p && q in {None, Some(p)}
       case Executed(_, s, _, q) => s.principal == p && q in {None, Some(p)}
       case Failing(_, q) => q in {None, Some(p)}
       case _ => true
  }

  lemma KnowsStep(w: World, a: Action, p: Principal)
    requires KnowsOnly(w, p)
    requires a.Deliver? ==> a.principal in {None, Some(p)}
    ensures KnowsOnly(Apply(w, a), p)
  {
  }

  /** When every delivery that carries a principal carries the one who started the run, nobody
      else is ever alerted. */
  lemma {:induction false} OnlyTheStarterIsAlerted(w: World, actions: seq<Action>, p: Principal)
    requires KnowsOnly(w, p)
    requires forall a <- actions :: a.Deliver? ==> a.principal in {None, Some(p)}
    ensures KnowsOnly(Execute(w, actions), p)
    decreases |actions|
  {
    hide KnowsOnly, Apply;
    if actions != [] {
      KnowsStep(w, actions[0], p);
      OnlyTheStarterIsAlerted(Apply(w, actions[0]), actions[1..], p);
    }
  }

  /** A failure is committed while the delivery or a readable checkpoint names a principal. */
  predicate FailsKnown(w: World, a: Action) {
    a.CommitFailure? && w.driver.Failing? && (w.driver.principal.Some? || (a.stateReadable && w.checkpoint.Saved?))
  }

  predicate FailsKnownOnce(w: World, actions: seq<Action>)
    decreases |actions|
  {
    actions != [] && (FailsKnown(w, actions[0]) || FailsKnownOnce(Apply(w, actions[0]), actions[1..]))
  }

  lemma AlertStep(w: World, a: Action, p: Principal)
    requires Safe(w) && KnowsOnly(w, p)
    ensures Apply(w, a).alerts == if FailsKnown(w, a) then [p] else w.alerts
  {
    hide GateRespected, ApprovalRequested;
  }

  lemma {:induction false} AlertsFrom(w: World, actions: seq<Action>, p: Principal)
    requires Safe(w) && KnowsOnly(w, p)
    requires forall a <- actions :: a.Deliver? ==> a.principal in {None, Some(p)}
    ensures Execute(w, actions).alerts == if FailsKnownOnce(w, actions) then [p] else w.alerts
    decreases |actions|
  {
    hide Safe, KnowsOnly, Apply, FailsKnown;
    if actions != [] {
      SafeStep(w, actions[0]);
      AlertStep(w, actions[0], p);
      KnowsStep(w, actions[0], p);
      AlertsFrom(Apply(w, actions[0]), actions[1..], p);
      if FailsKnown(w, actions[0]) {
        OneAlert(w, actions, p);
      }
    }
  }

  lemma OneAlert(w: World, actions: seq<Action>, p: Principal)
    requires Safe(w) && KnowsOnly(w, p) && actions != [] && FailsKnown(w, actions[0])
    ensures Execute(w, actions).alerts == [p]
  {
    hide GateRespected, ApprovalRequested;
    SafeStep(w, actions[0]);
    AlertStep(w, actions[0], p);
    TerminalIsAbsorbing(Apply(w, actions[0]), actions[1..]);
  }

  /** The one who started a run is alerted of its failure, once, exactly when the failure was committed
      while something named him. */
  lemma StarterIsAlertedIff(depth: Depth, actions: seq<Action>, p: Principal)
    requires forall a <- actions :: a.Deliver? ==> a.principal in {None, Some(p)}
    ensures Execute(InitialWorld(depth), actions).alerts
            == if FailsKnownOnce(InitialWorld(depth), actions) then [p] else []
  {
    AlertsFrom(InitialWorld(depth), actions, p);
  }

  // ----- depth and approval ---------------------------------------------------------------

  const ACTIVE_BLOCK := {RequestApproval, ExecuteScanners, ImportFindings, EnrichIntelligence, AttackPath}

  /** The channels were seeded with the assessment's own depth, and hold no approval before one was
      requested. */
  ghost predicate Rooted(w: World, s: GraphState) {
    s.depth == Some(w.depth) && (s.approvalId.Some? ==> ApprovalRequested(w.history))
  }

  ghost predicate RootedWorld(w: World) {
    && (w.checkpoint.Saved? ==> Rooted(w, w.checkpoint.state))
    && match w.driver
       case Invoking(_, s, _, _) => Rooted(w, s)
       case Executed(_, s, _, _) => Rooted(w, s)
       case _ => true
  }

  lemma VisitedRooted(w: World, moves: seq<L.AssessmentStatus>, cursor: bool, s: GraphState)
    requires w.driver.Invoking? && Rooted(w, s)
    ensures Rooted(Visited(w, moves, cursor), s)
  {
    var v := Visit(w.driver.next, w.driver.entry);
    if ApprovalRequested(w.history) {
      var u :| u in w.history && u.node == RequestApproval;
      assert u in w.history + [v];
    }
  }

  lemma RootedRunNode(w: World, r: NodeResult)
    requires RootedWorld(w) && w.driver.Invoking?
    ensures RootedWorld(ApplyRunNode(w, r))
  {
    hide Rooted, Committed;
    var Invoking(e, s, n, _) := w.driver;
    if w.checkpoint.Saved? {
      VisitedRooted(w, r.moves, r.cursor, w.checkpoint.state);
    }
    VisitedRooted(w, r.moves, r.cursor, s);
    if r.Returned? {
      MergeRooted(Visited(w, r.moves, r.cursor), n, s, r.delta);
    }
    RootedFrame(Visited(w, r.moves, r.cursor), ApplyRunNode(w, r));
  }

  lemma MergeRooted(w: World, n: Node, s: GraphState, d: Delta)
    requires Rooted(w, s) && exists v <- w.history :: v.node == n
    ensures Rooted(w, Merge(n, s, d))
  {
  }

  lemma RootedFrame(w: World, w': World)
    requires w.depth == w'.depth && w.history == w'.history
    ensures forall s :: Rooted(w, s) <==> Rooted(w', s)
  {
  }

  lemma RootedStep(w: World, a: Action)
    requires RootedWorld(w)
    ensures RootedWorld(Apply(w, a)) && Apply(w, a).depth == w.depth
  {
    hide ApprovalRequested, ApplyRunNode, Committed;
    match a
    case RunNode(r) =>
      if w.driver.Invoking? {
        RootedRunNode(w, r);
        RunNodeKeepsDepth(w, r);
      }
    case DieInNode(moves, cursor) =>
      if w.driver.Invoking? && w.checkpoint.Saved? {
        VisitedRooted(w, moves, cursor, w.checkpoint.state);
      }
    case _ =>
  }

  lemma RunNodeKeepsDepth(w: World, r: NodeResult)
    requires w.driver.Invoking?
    ensures ApplyRunNode(w, r).depth == w.depth
  {
  }

  lemma {:induction false} RootedAlways(w: World, actions: seq<Action>)
    requires RootedWorld(w)
    ensures RootedWorld(Execute(w, actions)) && Execute(w, actions).depth == w.depth
    decreases |actions|
  {
    hide RootedWorld, Apply;
    if actions != [] {
      RootedStep(w, actions[0]);
      RootedAlways(Apply(w, actions[0]), actions[1..]);
    }
  }

  /** Over every run the checkpoint holds the depth of the assessment, and an approval only after one
      was requested. */
  lemma CheckpointKeepsDepth(depth: Depth, actions: seq<Action>)
    ensures var w := Execute(InitialWorld(depth), actions);
      w.checkpoint.Saved? ==>
        && w.checkpoint.state.depth == Some(depth)
        && (w.checkpoint.state.approvalId.Some? ==> exists v <- w.history :: v.node == RequestApproval)
  {
    RootedAlways(InitialWorld(depth), actions);
  }

  /** A passive run stays out of the active-scan block. */
  ghost predicate OffBlock(w: World) {
    && (forall v <- w.history :: v.node !in ACTIVE_BLOCK)
    && (w.checkpoint.Saved? && w.checkpoint.next.Some? ==> w.checkpoint.next.value !in ACTIVE_BLOCK)
    && match w.driver
       case Invoking(_, _, n, _) => n !in ACTIVE_BLOCK
       case Executed(_, _, next, _) => next.Some? ==> next.value !in ACTIVE_BLOCK
       case _ => true
  }

  lemma OffBlockStep(w: World, a: Action)
    requires w.depth == Passive && RootedWorld(w) && OffBlock(w)
    ensures OffBlock(Apply(w, a))
  {
    hide ApprovalRequested, Committed;
  }

  lemma {:induction false} OffBlockAlways(w: World, actions: seq<Action>)
    requires w.depth == Passive && RootedWorld(w) && OffBlock(w)
    ensures OffBlock(Execute(w, actions))
    decreases |actions|
  {
    hide RootedWorld, OffBlock, Apply;
    if actions != [] {
      RootedStep(w, actions[0]);
      OffBlockStep(w, actions[0]);
      OffBlockAlways(Apply(w, actions[0]), actions[1..]);
    }
  }

  /** Whatever discovery selects and whatever crashes, a passive assessment never asks for an approval
      and never scans. */
  lemma PassiveRunsNeverScan(actions: seq<Action>)
    ensures forall v <- Execute(InitialWorld(Passive), actions).history ::
      v.node !in {RequestApproval, ExecuteScanners, ImportFindings, EnrichIntelligence, AttackPath}
  {
    OffBlockAlways(InitialWorld(Passive), actions);
  }

  // ----- how a delivery goes on -------------------------------------------------------------

  /** A delivery of a live run goes on at the node its checkpoint is parked before, unless it is queued
      or, running, its checkpoint is missing or unreadable: then it starts over from the first node
      for the delivery's principal, and fails as misconfigured without one. */
  lemma DeliveryGoesOn(w: World, p: Option<Principal>, readable: bool)
    requires Safe(w) && w.driver.Idle? && !IsTerminal(w.run.status)
    ensures var w' := Execute(w, [Deliver(p), Enter(readable)]);
      var startsOver := w.run.status == Queued || (w.run.status == Running && !(readable && w.checkpoint.Saved?));
      && (startsOver && p.None? ==> w'.driver == Failing(Misconfigured, None) && w'.run == w.run)
      && (startsOver && p.Some? ==>
           && w'.driver.Invoking? && w'.driver.entry == Seeded && w'.driver.next == Understand
           && w'.driver.state.principal == p.value && w'.driver.state.depth == Some(w.depth)
           && w'.driver.state.selected == [] && w'.driver.state.approvalId == None && w'.driver.state.product == 0)
      && (!startsOver && w.checkpoint.Saved? && w.checkpoint.next.Some? ==>
           w'.driver == Invoking(Resumed(w.checkpoint.next.value), w.checkpoint.state, w.checkpoint.next.value, p))
      && (!startsOver && w.checkpoint.Saved? && w.checkpoint.next.None? ==> w'.driver == Settling)
      && (!(startsOver && p.None?) ==>
           && w'.run.status == Running
           && w'.run.resumedCount == w.run.resumedCount + (if w.run.status == Queued then 0 else 1)
           && (w.run.status != Queued ==> !w'.run.approvalInterrupt && w'.run.pendingApproval == None)
           && (startsOver ==> w'.run.currentNode == None))
      && w'.checkpoint == w.checkpoint && w'.assessment == w.assessment && w'.history == w.history
  {
    ExecuteTwo(w, Deliver(p), Enter(readable));
  }

  /** The approval node's answer is what the paused run points at, and the gate is what it waits before. */
  lemma PauseNamesItsApproval(w: World, d: Delta, moves: seq<L.AssessmentStatus>, cursor: bool)
    requires w.driver.Invoking? && w.driver.next == RequestApproval && Committed(w.assessment, moves).1
    ensures var w' := Execute(w, [RunNode(Returned(d, moves, cursor)), SaveNode, Settle]);
      && w'.run.status == Interrupted && w'.run.pendingApproval == d.approvalId
      && w'.run.currentNode == Some(ExecuteScanners) && w'.driver.Idle? && w'.events == w.events
  {
    ExecuteThree(w, RunNode(Returned(d, moves, cursor)), SaveNode, Settle);
  }

  /** A run that reached its end is completed and announces the assessment's status as it stands. */
  lemma CompletionTellsTheStatus(w: World)
    requires w.driver.Settling? && w.checkpoint.Saved? && w.checkpoint.next == None
    ensures var w' := Execute(w, [Settle, Emit]);
      && w'.run.status == Completed && w'.run.currentNode == None && w'.assessment == w.assessment
      && w'.events == w.events + [Notice(Runner, RunCompleted(w.assessment))]
  {
    ExecuteTwo(w, Settle, Emit);
  }

  /** A request for cancellation takes exactly the assessments that have not ended, and a teardown ends
      exactly those that are being cancelled. */
  lemma CancellationMoves(w: World)
    ensures Apply(w, RequestCancel).assessment == if L.IsTerminal(w.assessment) then w.assessment else L.Cancelling
    ensures Apply(w, CancelByWorker).assessment == if w.assessment == L.Cancelling then L.Cancelled else w.assessment
    ensures Apply(w, CancelByWorker).run.status == if IsTerminal(w.run.status) then w.run.status else Cancelled
  {
    L.CancellableIff(w.assessment);
  }

  /** A node's update reaches the channels it owns and no other. */
  lemma NodesWriteTheirOwn(n: Node, s: GraphState, d: Delta)
    ensures var s' := Merge(n, s, d);
      && s'.product == d.product && s'.principal == s.principal && s'.depth == s.depth
      && (s'.selected == if n == DiscoverAssets then d.selected else s.selected)
      && (s'.approvalId == if n == RequestApproval then d.approvalId else s.approvalId)
  {
  }

  /** A first delivery sets a clean run going, under the principal it carries. */
  lemma FirstDeliveryStartsClean(depth: Depth, p: Principal, readable: bool)
    ensures var w := Execute(InitialWorld(depth), [Deliver(Some(p)), Enter(readable)]);
      && w.run.status == Running && w.run.currentNode == None && w.run.failure == None
      && w.run.resumedCount == 0 && !w.run.approvalInterrupt && w.run.pendingApproval == None
      && w.driver.Invoking? && w.driver.next == Understand && w.driver.state.principal == p
      && w.driver.state.depth == Some(depth) && w.checkpoint == NoCheckpoint
      && w.assessment == L.Created && w.history == [] && w.events == [] && w.alerts == []
  {
    ExecuteTwo(InitialWorld(depth), Deliver(Some(p)), Enter(readable));
  }
}
