/**
 The runner itself: methods that assign the run row, the checkpoint and the assessment one
 transaction at a time.  Each method performs exactly one step of `RunRecovery`, and `Advance`
 is one uninterrupted run of such steps.
 */
module AgentRunners {
  import opened Basics
  import opened PipelineGraph
  import opened RunRecovery
  import L = AssessmentLifecycle

  datatype RunOutcome = RunOutcome(status: RunStatus, failure: Option<Cause>)

  class AgentRunner {
    // the run row
    var status: RunStatus
    var currentNode: Option<Node>
    var approvalInterrupt: bool
    var pendingApproval: Option<nat>
    var resumedCount: nat
    var failure: Option<Cause>
    // the rest of the durable state
    var checkpoint: Checkpoint
    var assessment: L.AssessmentStatus
    var alerts: seq<Principal>
    var events: seq<Notice>
    const depth: Depth
    // what was executed, for the specification only
    ghost var history: seq<Visit>
    ghost var everInterrupted: bool

    constructor (depth: Depth)
      ensures this.depth == depth && WorldAt(Idle) == InitialWorld(depth)
    {
      this.depth := depth;
      status, currentNode, approvalInterrupt := Queued, None, false;
      pendingApproval, resumedCount, failure := None, 0, None;
      checkpoint, assessment, alerts, events := NoCheckpoint, L.Created, [], [];
      history, everInterrupted := [], false;
    }

    ghost function Row(): RunRow
      reads this
    {
      RunRow(status, currentNode, approvalInterrupt, pendingApproval, resumedCount, failure)
    }

    /** The durable state together with the position of the driver. */
    ghost function WorldAt(d: Driver): World
      reads this
    {
      World(Row(), checkpoint, assessment, depth, d, history, events, alerts, everInterrupted)
    }

    method Inspect(principal: Option<Principal>) returns (d: Driver)
      ensures WorldAt(d) == Apply(WorldAt(Idle), Deliver(principal))
    {
      d := if IsTerminal(status) then Idle else Inspected(status, principal);
    }

    method MarkRunning(seen: RunStatus, seeding: bool)
      modifies this`status, this`resumedCount, this`approvalInterrupt, this`pendingApproval, this`currentNode
      ensures Row() == EnteredRow(old(Row()), seen, seeding)
    {
      status := Running;
      if seen != Queued {
        resumedCount := resumedCount + 1;
        approvalInterrupt := false;
        pendingApproval := None;
      }
      if seeding {
        currentNode := None;
      }
    }

    method Enter(seen: RunStatus, principal: Option<Principal>, readable: bool) returns (d: Driver)
      modifies this`status, this`resumedCount, this`approvalInterrupt, this`pendingApproval, this`currentNode
      ensures WorldAt(d) == ApplyEnter(old(WorldAt(Inspected(seen, principal))), readable)
      ensures !IsTerminal(old(status)) ==> d.Invoking? || d.Settling? || d.Failing?
    {
      hide Seed, IsTerminal, EnteredRow;
      var hasCheckpoint := seen == Interrupted;
      if seen == Running {
        hasCheckpoint := readable && checkpoint.Saved?;
      }
      if !hasCheckpoint && principal.None? {
        return Failing(Misconfigured, principal);
      }
      if IsTerminal(status) {
        return Idle;
      }
      MarkRunning(seen, !hasCheckpoint);
      if !hasCheckpoint {
        return Invoking(Seeded, Seed(principal.value, depth), Understand, principal);
      }
      match checkpoint
      case NoCheckpoint => d := Failing(EmptyInput, principal);
      case Saved(s, None) => d := Settling;
      case Saved(s, Some(n)) => d := Invoking(Resumed(n), s, n, principal);
    }

    /** The moves of one node, each in its own transaction, until one is refused. */
    method CommitMoves(moves: seq<L.AssessmentStatus>) returns (permitted: bool)
      modifies this`assessment
      ensures (assessment, permitted) == Committed(old(assessment), moves)
    {
      assert moves[0..] == moves;
      for i := 0 to |moves|
        invariant Committed(old(assessment), moves) == Committed(assessment, moves[i..])
      {
        assert moves[i..][0] == moves[i] && moves[i..][1..] == moves[i + 1..];
        if !L.CanTransition(assessment, moves[i]) {
          return false;
        }
        assessment := moves[i];
      }
      permitted := true;
    }

    method RunNode(d: Driver, r: NodeResult) returns (d': Driver)
      requires d.Invoking?
      modifies this`currentNode, this`assessment, this`history
      ensures WorldAt(d') == ApplyRunNode(old(WorldAt(d)), r)
      ensures d'.Failing? || (d'.Executed? && d'.successor == Successor(d.next, d'.result))
      ensures d'.principal == d.principal && |history| == |old(history)| + 1
    {
      history := history + [Visit(d.next, d.entry)];
      if r.cursor {
        currentNode := Some(d.next);
      }
      var permitted := CommitMoves(r.moves);
      if !permitted {
        return Failing(RefusedTransition, d.principal);
      }
      if r.Raised? {
        return Failing(NodeError(r.code), d.principal);
      }
      var merged := Merge(d.next, d.state, r.delta);
      d' := Executed(d.entry, merged, Successor(d.next, merged), d.principal);
    }

    method SaveNode(d: Driver) returns (d': Driver)
      requires d.Executed?
      modifies this`checkpoint
      ensures WorldAt(d') == ApplySaveNode(old(WorldAt(d)))
      ensures d'.Settling? || (d'.Invoking? && Some(d'.next) == d.successor && d'.principal == d.principal)
    {
      checkpoint := Saved(d.result, d.successor);
      d' := if d.successor == None || d.successor == Some(GATE) then Settling
            else Invoking(d.entry, d.result, d.successor.value, d.principal);
    }

    /** Run the compiled graph from where `d` stands until it ends, pauses or raises. */
    method Invoke(d: Driver, nodes: Node -> NodeResult) returns (d': Driver, ghost actions: seq<Action>)
      requires d.Invoking?
      modifies this
      ensures d'.Settling? || d'.Failing?
      ensures d'.Failing? ==> d'.principal == d.principal
      ensures status == old(status) && |history| <= |old(history)| + 14
      ensures WorldAt(d') == Execute(old(WorldAt(d)), actions)
    {
      hide ApplyRunNode, ApplySaveNode, Execute, Successor, Remaining;
      d', actions := d, [];
      ExecuteNothing(WorldAt(d));
      if d.entry.Seeded? && d.next == Understand {
        checkpoint := Saved(d.state, Some(Understand));
        actions := [SaveInput];
        ExecuteOne(old(WorldAt(d)), SaveInput);
      }
      while d'.Invoking?
        invariant d'.Invoking? || d'.Settling? || d'.Failing?
        invariant !d'.Settling? ==> d'.principal == d.principal
        invariant status == old(status)
        invariant d'.Invoking? ==> |history| + Remaining(Some(d'.next)) <= |old(history)| + 14
        invariant |history| <= |old(history)| + 14
        invariant WorldAt(d') == Execute(old(WorldAt(d)), actions)
        decreases if d'.Invoking? then Remaining(Some(d'.next)) else 0
      {
        ghost var at := d'.next;
        var r := nodes(d'.next);
        d' := RunNode(d', r);
        ExecuteSnoc(old(WorldAt(d)), actions, RunRecovery.RunNode(r));
        actions := actions + [RunRecovery.RunNode(r)];
        if d'.Executed? {
          StepDecreases(at, d'.result);
          d' := SaveNode(d');
          ExecuteSnoc(old(WorldAt(d)), actions, RunRecovery.SaveNode);
          actions := actions + [RunRecovery.SaveNode];
        }
      }
    }

    method SettleInterrupt() returns (o: RunOutcome)
      requires checkpoint.Saved? && checkpoint.next.Some?
      modifies this`status, this`approvalInterrupt, this`pendingApproval, this`currentNode, this`everInterrupted
      ensures WorldAt(Idle) == ApplySettle(old(WorldAt(Settling)))
      ensures o == RunOutcome(Interrupted, None) && status == Interrupted
    {
      status, approvalInterrupt := Interrupted, true;
      pendingApproval, currentNode := checkpoint.state.approvalId, checkpoint.next;
      everInterrupted := true;
      o := RunOutcome(Interrupted, None);
    }

    method SettleComplete() returns (o: RunOutcome, d: Driver)
      requires checkpoint.Saved? ==> checkpoint.next == None
      modifies this`status, this`currentNode
      ensures WorldAt(d) == ApplySettle(old(WorldAt(Settling))) && d.Emitting?
      ensures o == RunOutcome(Completed, None) && status == Completed
    {
      status, currentNode := Completed, None;
      o, d := RunOutcome(Completed, None), Emitting(Notice(Runner, RunCompleted(assessment)));
    }

    method SettleFailure(cause: Cause, principal: Option<Principal>, readable: bool)
      returns (o: RunOutcome, d: Driver)
      modifies this`status, this`failure, this`assessment, this`alerts
      ensures WorldAt(d) == ApplyCommitFailure(old(WorldAt(Failing(cause, principal))), readable) && d.Emitting?
      ensures o == RunOutcome(Failed, Some(cause)) && status == Failed
    {
      var actor := principal;
      if actor.None? && readable && checkpoint.Saved? {
        actor := Some(checkpoint.state.principal);
      }
      status, failure := Failed, Some(cause);
      if !L.IsTerminal(assessment) {
        assessment := L.Failed;
      }
      if actor.Some? {
        alerts := alerts + [actor.value];
      }
      o, d := RunOutcome(Failed, Some(cause)), Emitting(Notice(Runner, RunFailed(cause)));
    }

    method EmitEvent(n: Notice)
      modifies this`events
      ensures WorldAt(Idle) == Apply(old(WorldAt(Emitting(n))), Emit)
    {
      events := events + [n];
    }

    /** Settle what the graph did: a pause, the end, or an error; then send the terminal event. */
    method Conclude(d: Driver, readable: bool) returns (o: RunOutcome, ghost actions: seq<Action>)
      requires d.Settling? || d.Failing?
      modifies this
      ensures WorldAt(Idle) == Execute(old(WorldAt(d)), actions)
      ensures o.status == status && status in {Interrupted, Completed, Failed}
      ensures history == old(history)
    {
      hide ApplySettle, ApplyCommitFailure, Execute;
      ghost var start := WorldAt(d);
      if d.Settling? && checkpoint.Saved? && checkpoint.next.Some? {
        o := SettleInterrupt();
        actions := [RunRecovery.Settle];
        ExecuteOne(start, actions[0]);
        return;
      }
      var e: Driver;
      if d.Settling? {
        o, e := SettleComplete();
        actions := [RunRecovery.Settle];
      } else {
        o, e := SettleFailure(d.cause, d.principal, readable);
        actions := [CommitFailure(readable)];
      }
      ExecuteOne(start, actions[0]);
      EmitEvent(e.notice);
      ExecuteSnoc(start, actions, Emit);
      actions := actions + [Emit];
    }

    /** Whatever state a crash left behind and whatever the nodes do, one uninterrupted call
        settles a run that had not ended, and leaves a run that had ended exactly as it was. */
    method Advance(principal: Option<Principal>, nodes: Node -> NodeResult, readable: bool)
      returns (o: RunOutcome, ghost actions: seq<Action>)
      modifies this
      ensures WorldAt(Idle) == Execute(old(WorldAt(Idle)), actions)
      ensures o.status == status
      ensures !IsTerminal(old(status)) ==> status in {Interrupted, Completed, Failed}
      ensures IsTerminal(old(status)) ==> WorldAt(Idle) == old(WorldAt(Idle)) && o.failure == failure
      ensures |history| <= |old(history)| + 14
    {
      hide ApplyEnter, Execute;
      ghost var start := WorldAt(Idle);
      var d := Inspect(principal);
      actions := [Deliver(principal)];
      ExecuteOne(start, actions[0]);
      if d.Idle? {
        return RunOutcome(status, failure), actions;
      }
      d := Enter(d.status, d.principal, readable);
      ExecuteSnoc(start, actions, RunRecovery.Enter(readable));
      actions := actions + [RunRecovery.Enter(readable)];
      ghost var more;
      if d.Invoking? {
        d, more := Invoke(d, nodes);
        ExecuteConcat(start, actions, more);
        actions := actions + more;
      }
      o, more := Conclude(d, readable);
      ExecuteConcat(start, actions, more);
      actions := actions + more;
    }
  }
}
