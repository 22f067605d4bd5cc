/** Assessment statuses and the moves the service layer allows between them. */
module AssessmentLifecycle {

  datatype AssessmentStatus =
    | Created | Planning | Discovery | WaitingForApproval | Scanning | Analyzing | Remediating
    | Completed | Failed | Cancelling | Cancelled

  predicate IsTerminal(s: AssessmentStatus) {
    s in {Completed, Failed, Cancelled}
  }

  function AllowedTransitions(s: AssessmentStatus): set<AssessmentStatus> {
    match s
    case Created => {Planning, Cancelling, Failed}
    case Planning => {Discovery, Cancelling, Failed}
    case Discovery => {WaitingForApproval, Scanning, Analyzing, Cancelling, Failed}
    case WaitingForApproval => {Scanning, Cancelling, Cancelled, Failed}
    case Scanning => {Analyzing, Cancelling, Failed}
    case Analyzing => {Remediating, Completed, Cancelling, Failed}
    case Remediating => {Completed, Cancelling, Failed}
    case Cancelling => {Cancelled, Failed}
    case Completed => {}
    case Failed => {}
    case Cancelled => {}
  }

  /** A no-op is always accepted; anything else has to be listed. */
  predicate CanTransition(source: AssessmentStatus, target: AssessmentStatus) {
    source == target || target in AllowedTransitions(source)
  }

  /** How far along its life an assessment is. */
  function Progress(s: AssessmentStatus): nat {
    match s
    case Created => 0
    case Planning => 1
    case Discovery => 2
    case WaitingForApproval => 3
    case Scanning => 4
    case Analyzing => 5
    case Remediating => 6
    case Cancelling => 7
    case Completed => 8
    case Failed => 8
    case Cancelled => 8
  }

  ghost predicate IsHistory(h: seq<AssessmentStatus>) {
    forall i :: 0 <= i < |h| - 1 ==> CanTransition(h[i], h[i + 1])
  }

  /** No history ever goes back: a status that was left is never seen again, and once a
      terminal status is reached nothing else follows. */
  lemma {:induction false} NoResurrection(h: seq<AssessmentStatus>, i: nat, j: nat)
    requires IsHistory(h) && i <= j < |h|
    ensures Progress(h[i]) <= Progress(h[j])
    ensures Progress(h[i]) == Progress(h[j]) ==> h[i] == h[j]
    ensures IsTerminal(h[i]) ==> h[j] == h[i]
    decreases j
  {
    if i < j {
      NoResurrection(h, i, j - 1);
      assert CanTransition(h[j - 1], h[j - 1 + 1]);
    }
  }

  /** Failing is always open to an assessment that has not ended, and to no other. */
  lemma FailureAlwaysAllowed(s: AssessmentStatus)
    ensures Failed in AllowedTransitions(s) <==> !IsTerminal(s)
    ensures AllowedTransitions(s) == {} <==> IsTerminal(s)
  {
    assert Failed in AllowedTransitions(s) || IsTerminal(s);
  }

  /** The table read backwards: from where each status can be reached in one move. */
  function Predecessors(t: AssessmentStatus): set<AssessmentStatus> {
    match t
    case Created => {}
    case Planning => {Created}
    case Discovery => {Planning}
    case WaitingForApproval => {Discovery}
    case Scanning => {Discovery, WaitingForApproval}
    case Analyzing => {Discovery, Scanning}
    case Remediating => {Analyzing}
    case Completed => {Analyzing, Remediating}
    case Failed => {Created, Planning, Discovery, WaitingForApproval, Scanning, Analyzing, Remediating, Cancelling}
    case Cancelling => {Created, Planning, Discovery, WaitingForApproval, Scanning, Analyzing, Remediating}
    case Cancelled => {WaitingForApproval, Cancelling}
  }

  /** A move is permitted exactly when it changes nothing or comes from where its target is reached. */
  lemma MovesReadBackwards(s: AssessmentStatus, t: AssessmentStatus)
    ensures CanTransition(s, t) <==> s == t || s in Predecessors(t)
  {
  }

  /** Cancellation can be asked for exactly while an assessment has not ended. */
  lemma CancellableIff(s: AssessmentStatus)
    ensures CanTransition(s, Cancelling) <==> !IsTerminal(s)
  {
    MovesReadBackwards(s, Cancelling);
  }
}
