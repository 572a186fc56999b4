/** Automation packs: what an execution must do, as a function of the automation pack and of everything the outside world answers. */
module Saga {
  import opened Text

  /** ApprovalRequirement */
  datatype Requirement = Requirement(required: bool, minimum: int)

  /** ApprovalDecision, reduced to what is evaluated. */
  datatype Decision = Decision(approved: bool, count: int)

  /** One step of a definition; `hook` says whether it has a rollback action. */
  datatype StepDef = StepDef(mutating: bool, maxRetries: int, approval: Option<Requirement>, hook: bool)

  datatype Pack = Pack(steps: seq<StepDef>, approval: Option<Requirement>)

  datatype ArtifactKind = Stdout | Stderr | ErrorContext | PolicyRationale | ApprovalCheckpointData | ActionMessage | ActionPayload

  /** What the action runner returns: success with the kinds of evidence it left, or an error that may be a timeout. */
  datatype Answer = Success(left: set<ArtifactKind>) | Failure(timeout: bool)

  /** The policy simulator, the decisions of the request and the action runner. The runner is asked at most once for each
      step, attempt and direction, so its answers are a function of these. */
  datatype World = World(policy: nat -> string, workflow: Decision, decision: nat -> Decision, run: (nat, nat, bool) -> Answer)

  datatype StepStatus = Pending | Running | Succeeded | Failed | TimedOut | Blocked | Skipped

  datatype Status = ExecRunning | ExecSucceeded | ExecFailed | ExecBlocked

  datatype RollbackStatus = NotRequired | Completed | Partial

  // ---- gates ----

  const ALLOW := "allow"
  const QUEUE := "queue"
  const DENY := "deny"

  /** The outcome Start acts on: an empty answer is an allow. */
  function Outcome(raw: string): string {
    Lower(Trim(if raw == "" then ALLOW else raw))
  }

  predicate Required(r: Option<Requirement>) {
    r.Some? && r.value.required
  }

  /** evaluateApprovalCheckpoint, for a requirement that applies. */
  predicate Approved(r: Requirement, d: Decision) {
    var minimum := if r.minimum <= 0 then 1 else r.minimum;
    d.approved && !(0 < d.count < minimum) && !(d.count == 0 && minimum > 1)
  }

  predicate Cleared(r: Option<Requirement>, d: Decision) {
    Required(r) ==> Approved(r.value, d)
  }

  datatype Gate = Open | Denied | Queued | WorkflowHeld | StepHeld

  function GateOf(pack: Pack, w: World, i: nat): Gate
    requires i < |pack.steps|
  {
    if !pack.steps[i].mutating then Open
    else if Outcome(w.policy(i)) == DENY then Denied
    else if Outcome(w.policy(i)) == QUEUE then Queued
    else if !Cleared(pack.approval, w.workflow) then WorkflowHeld
    else if !Cleared(pack.steps[i].approval, w.decision(i)) then StepHeld
    else Open
  }

  // ---- attempts ----

  function MaxTries(step: StepDef): (n: nat)
    ensures n >= 1
  {
    (if step.maxRetries < 0 then 0 else step.maxRetries) + 1
  }

  function StatusOf(answer: Answer): StepStatus {
    match answer
    case Success(_) => Succeeded
    case Failure(timeout) => if timeout then TimedOut else Failed
  }

  /** The attempt at which a step stops: its first success, or its last one allowed. */
  function LastTry(w: World, i: nat, attempt: nat, max: nat): (a: nat)
    requires 1 <= attempt <= max
    ensures attempt <= a <= max
    ensures a < max ==> w.run(i, a, false).Success?
    ensures forall b :: attempt <= b < a ==> !w.run(i, b, false).Success?
    decreases max - attempt
  {
    if w.run(i, attempt, false).Success? || attempt == max then attempt else LastTry(w, i, attempt + 1, max)
  }

  function Tries(pack: Pack, w: World, i: nat): nat
    requires i < |pack.steps|
  {
    if GateOf(pack, w, i) == Open then LastTry(w, i, 1, MaxTries(pack.steps[i])) else 0
  }

  /** How a step ends once it is reached. */
  function Verdict(pack: Pack, w: World, i: nat): StepStatus
    requires i < |pack.steps|
  {
    if GateOf(pack, w, i) == Open then StatusOf(w.run(i, Tries(pack, w, i), false)) else Blocked
  }

  /** The first step from `i` on that does not succeed, or the number of steps. */
  function StopAt(pack: Pack, w: World, i: nat): (k: nat)
    requires i <= |pack.steps|
    ensures i <= k <= |pack.steps|
    ensures forall j :: i <= j < k ==> Verdict(pack, w, j) == Succeeded
    ensures k < |pack.steps| ==> Verdict(pack, w, k) != Succeeded
    decreases |pack.steps| - i
  {
    if i == |pack.steps| || Verdict(pack, w, i) != Succeeded then i else StopAt(pack, w, i + 1)
  }

  function Stop(pack: Pack, w: World): (k: nat)
    ensures k <= |pack.steps|
  {
    StopAt(pack, w, 0)
  }

  function StatusAt(pack: Pack, w: World, k: nat): Status
    requires k <= |pack.steps|
  {
    if k == |pack.steps| then ExecSucceeded else if Verdict(pack, w, k) == Blocked then ExecBlocked else ExecFailed
  }

  // ---- what each step is left with ----

  datatype StepState = StepState(status: StepStatus, attempts: nat, history: seq<StepStatus>, undone: Option<StepStatus>)

  const UNTOUCHED := StepState(Pending, 0, [], None)

  function History(w: World, i: nat, n: nat): seq<StepStatus> {
    seq(n, a requires 0 <= a => StatusOf(w.run(i, a + 1, false)))
  }

  /** A step after its own run, before any rollback. */
  function Ran(pack: Pack, w: World, i: nat): StepState
    requires i < |pack.steps|
  {
    var n := Tries(pack, w, i);
    StepState(Verdict(pack, w, i), n, History(w, i, n), None)
  }

  function UndoStatus(w: World, i: nat): StepStatus {
    if w.run(i, 1, true).Success? then Succeeded else Failed
  }

  /** A step at the end of an execution that stopped at `k`. */
  function Final(pack: Pack, w: World, k: nat, i: nat): StepState
    requires i < |pack.steps| && k <= |pack.steps|
  {
    if i > k then UNTOUCHED.(status := Skipped)
    else if i < k < |pack.steps| && pack.steps[i].hook then Ran(pack, w, i).(undone := Some(UndoStatus(w, i)))
    else Ran(pack, w, i)
  }

  // ---- rollback ----

  datatype Undo = Undo(step: nat, status: StepStatus)

  function HookOf(pack: Pack, w: World, i: nat): seq<Undo>
    requires i < |pack.steps|
  {
    if pack.steps[i].hook then [Undo(i, UndoStatus(w, i))] else []
  }

  /** The hooks of the steps below `k`, the last one first. */
  function Unwound(pack: Pack, w: World, k: nat): seq<Undo>
    requires k <= |pack.steps|
  {
    if k == 0 then [] else HookOf(pack, w, k - 1) + Unwound(pack, w, k - 1)
  }

  predicate AnyFailed(undos: seq<Undo>) {
    exists u :: u in undos && u.status == Failed
  }

  function RollbackOutcome(undos: seq<Undo>): RollbackStatus {
    if undos == [] then NotRequired else if AnyFailed(undos) then Partial else Completed
  }

  /** Exactly the steps that succeeded and have a hook are undone, each once, in the reverse order. */
  lemma {:induction false} UnwoundIsExact(pack: Pack, w: World, k: nat)
    requires k <= |pack.steps|
    ensures forall u :: u in Unwound(pack, w, k) <==> u.step < k && pack.steps[u.step].hook && u.status == UndoStatus(w, u.step)
    ensures forall p, q :: 0 <= p < q < |Unwound(pack, w, k)| ==> Unwound(pack, w, k)[p].step > Unwound(pack, w, k)[q].step
  {
    if k > 0 {
      UnwoundIsExact(pack, w, k - 1);
      var rest := Unwound(pack, w, k - 1);
      forall q | 0 <= q < |rest| ensures rest[q].step < k - 1 { assert rest[q] in rest; }
    }
  }
}
