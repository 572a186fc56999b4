/** What the record of a finished execution says, in terms of the definition and of what policy, approvers and runner
    answered, written out. */
module SagaRecord {
  import opened Text
  import opened Saga
  import opened Timeline
  import opened Executor

  /** The record that Start leaves behind. */
  ghost predicate Finished(x: Execution)
    reads x
  {
    x.Ended(Stop(x.pack, x.world))
  }

  /** Enough approvers: at least the minimum, or none counted where one is enough. A negative count is not looked at. */
  predicate Enough(minimum: int, count: int) {
    count >= minimum || count < 0 || (count == 0 && minimum <= 1)
  }

  /** What a required approval asks of a decision. */
  predicate Given(r: Option<Requirement>, d: Decision) {
    r.Some? && r.value.required ==> d.approved && Enough(r.value.minimum, d.count)
  }

  /** Neither denied nor queued; an empty answer of the policy is an allow. */
  predicate LetThrough(answer: string) {
    answer == "" || (Lower(Trim(answer)) != "deny" && Lower(Trim(answer)) != "queue")
  }

  predicate MayRun(pack: Pack, w: World, i: nat)
    requires i < |pack.steps|
  {
    pack.steps[i].mutating ==> LetThrough(w.policy(i)) && Given(pack.approval, w.workflow) && Given(pack.steps[i].approval, w.decision(i))
  }

  lemma {:induction false} ClearedIff(r: Option<Requirement>, d: Decision)
    ensures Cleared(r, d) <==> Given(r, d)
  {}

  lemma {:induction false} OutcomeIff(answer: string)
    ensures Outcome(answer) != DENY && Outcome(answer) != QUEUE <==> LetThrough(answer)
  {
    if answer == "" {
      var a := Lower(Trim(ALLOW));
      assert Trimmed(ALLOW) && a[0] == 'a' && DENY[0] == 'd' && QUEUE[0] == 'q';
    }
  }

  lemma {:induction false} OpenIff(pack: Pack, w: World, i: nat)
    requires i < |pack.steps|
    ensures GateOf(pack, w, i) == Open <==> MayRun(pack, w, i)
  {
    ClearedIff(pack.approval, w.workflow);
    ClearedIff(pack.steps[i].approval, w.decision(i));
    OutcomeIff(w.policy(i));
  }

  // ---- gates ----

  /** A mutating step that was ever attempted was let through by its policy, and every approval it needs, its own and that of
      the workflow, was given by enough approvers. */
  lemma {:induction false} ActedOnlyWhenApproved(x: Execution, i: nat)
    requires Finished(x) && i < |x.steps| && x.steps[i].attempts > 0
    ensures x.pack.steps[i].mutating ==>
            && LetThrough(x.world.policy(i))
            && Given(x.pack.approval, x.world.workflow)
            && Given(x.pack.steps[i].approval, x.world.decision(i))
  {
    OpenIff(x.pack, x.world, i);
  }

  /** A minimum of two or more, with the approvers counted, means that many of them. */
  lemma {:induction false} ManyApprovers(x: Execution, i: nat)
    requires Finished(x) && i < |x.steps| && x.steps[i].attempts > 0 && x.pack.steps[i].mutating
    ensures var own, all := x.pack.steps[i].approval, x.pack.approval;
            var d, w := x.world.decision(i), x.world.workflow;
            && (own.Some? && own.value.required && own.value.minimum >= 2 && d.count >= 0 ==> d.approved && d.count >= own.value.minimum)
            && (all.Some? && all.value.required && all.value.minimum >= 2 && w.count >= 0 ==> w.approved && w.count >= all.value.minimum)
  {
    ActedOnlyWhenApproved(x, i);
  }

  /** A step that was reached is blocked if and only if it mutates and its policy or a required approval holds it back. */
  lemma {:induction false} BlockedIff(x: Execution, i: nat)
    requires Finished(x) && i < |x.steps| && forall j :: 0 <= j < i ==> x.steps[j].status == Succeeded
    ensures x.steps[i].status == Blocked <==> !MayRun(x.pack, x.world, i)
  {
    ReachedBefore(x, i);
    OpenIff(x.pack, x.world, i);
  }

  lemma {:induction false} SucceededIff(x: Execution, i: nat)
    requires Finished(x) && i < |x.steps|
    ensures x.steps[i].status == Succeeded <==> i < Stop(x.pack, x.world)
  {
    var k := Stop(x.pack, x.world);
    assert x.steps[i] == Final(x.pack, x.world, k, i);
  }

  /** Where all steps before succeeded, the execution got there. */
  lemma {:induction false} ReachedBefore(x: Execution, i: nat)
    requires Finished(x) && i < |x.steps| && forall j :: 0 <= j < i ==> x.steps[j].status == Succeeded
    ensures i <= Stop(x.pack, x.world)
  {
    if i > 0 { SucceededIff(x, i - 1); }
  }

  // ---- attempts ----

  /** The attempts that a definition allows. */
  function Allowed(step: StepDef): nat {
    if step.maxRetries < 0 then 1 else step.maxRetries + 1
  }

  /** A step that was attempted: it stopped at its first success or after all attempts allowed, it has the status of its last
      attempt, and the history holds what the runner answered each time. */
  lemma {:induction false} AttemptsTell(x: Execution, i: nat)
    requires Finished(x) && i < |x.steps| && x.steps[i].attempts > 0
    ensures var s, n := x.steps[i], x.steps[i].attempts;
            && n <= Allowed(x.pack.steps[i]) && (n < Allowed(x.pack.steps[i]) ==> s.status == Succeeded)
            && (s.status == Succeeded <==> x.world.run(i, n, false).Success?)
            && (s.status == TimedOut <==> x.world.run(i, n, false) == Failure(true))
            && (s.status == Failed <==> x.world.run(i, n, false) == Failure(false))
            && (forall a :: 1 <= a < n ==> x.world.run(i, a, false).Failure?)
  {
    var n := x.steps[i].attempts;
    assert n == LastTry(x.world, i, 1, MaxTries(x.pack.steps[i]));
  }

  lemma {:induction false} HistoryAt(w: World, i: nat, n: nat, a: nat)
    requires 1 <= a <= n
    ensures |History(w, i, n)| == n && History(w, i, n)[a - 1] == StatusOf(w.run(i, a, false))
  {}

  lemma {:induction false} HistoryIs(x: Execution, i: nat)
    requires Finished(x) && i < |x.steps| && x.steps[i].attempts > 0
    ensures x.steps[i].history == History(x.world, i, x.steps[i].attempts)
  {}

  lemma {:induction false} HistoryTells(x: Execution, i: nat, a: nat)
    requires Finished(x) && i < |x.steps| && 1 <= a <= x.steps[i].attempts
    ensures |x.steps[i].history| == x.steps[i].attempts
    ensures match x.world.run(i, a, false)
            case Success(_) => x.steps[i].history[a - 1] == Succeeded
            case Failure(timeout) => x.steps[i].history[a - 1] == if timeout then TimedOut else Failed
  {
    HistoryIs(x, i);
    HistoryAt(x.world, i, x.steps[i].attempts, a);
  }

  // ---- the outcome ----

  /** An execution succeeded if and only if every step did; otherwise exactly one step failed, timed out or was blocked,
      everything before it succeeded and everything after it was skipped. */
  lemma {:induction false} StatusTells(x: Execution)
    requires Finished(x)
    ensures x.status == ExecSucceeded <==> x.failure == None
    ensures x.status == ExecSucceeded <==> forall i :: 0 <= i < |x.steps| ==> x.steps[i].status == Succeeded
    ensures x.failure.Some? ==>
            var k := x.failure.value.0;
            && k < |x.steps| && x.steps[k].status in {Failed, TimedOut, Blocked}
            && (x.status == ExecBlocked <==> x.steps[k].status == Blocked) && (x.status == ExecFailed <==> x.steps[k].status != Blocked)
            && (forall i :: 0 <= i < k ==> x.steps[i].status == Succeeded) && (forall i :: k < i < |x.steps| ==> x.steps[i].status == Skipped)
  {
    var k := Stop(x.pack, x.world);
    if k < |x.steps| { assert x.steps[k] == Final(x.pack, x.world, k, k) && x.steps[k].status != Succeeded; }
  }

  /** The category of a failure: execution for a step that ran, policy for one that was denied or queued, approval for one
      whose approval was not given. */
  lemma {:induction false} CategoryTells(x: Execution)
    requires Finished(x) && x.failure.Some?
    ensures var k, category := x.failure.value.0, x.failure.value.1;
            && k < |x.steps|
            && (category == ByExecution <==> x.steps[k].status != Blocked)
            && (category == ByPolicy <==> x.pack.steps[k].mutating && !LetThrough(x.world.policy(k)))
  {
    var k := Stop(x.pack, x.world);
    assert x.steps[k] == Final(x.pack, x.world, k, k);
    OutcomeIff(x.world.policy(k));
  }

  // ---- rollback ----

  /** Exactly the hooks of the steps that succeeded were run, once each and the last step first, unless everything succeeded;
      each has the outcome of its run. */
  lemma {:induction false} RollbackTells(x: Execution, u: Undo)
    requires Finished(x)
    ensures u in x.rollback <==>
            && x.status != ExecSucceeded && u.step < |x.steps| && x.steps[u.step].status == Succeeded && x.pack.steps[u.step].hook
            && u.status == if x.world.run(u.step, 1, true).Success? then Succeeded else Failed
    ensures forall p, q :: 0 <= p < q < |x.rollback| ==> x.rollback[p].step > x.rollback[q].step
  {
    var k := Stop(x.pack, x.world);
    UnwoundIsExact(x.pack, x.world, k);
    if u.step < |x.steps| {
      assert x.steps[u.step] == Final(x.pack, x.world, k, u.step);
      SucceededIff(x, u.step);
    }
  }

  /** A step has a rollback status exactly if its hook was run. */
  lemma {:induction false} UndoneTells(x: Execution, i: nat)
    requires Finished(x) && i < |x.steps|
    ensures x.steps[i].undone.Some? <==> x.status != ExecSucceeded && x.steps[i].status == Succeeded && x.pack.steps[i].hook
    ensures x.steps[i].undone.Some? ==> x.steps[i].undone.value == if x.world.run(i, 1, true).Success? then Succeeded else Failed
  {
    SucceededIff(x, i);
    assert x.steps[i] == Final(x.pack, x.world, Stop(x.pack, x.world), i);
  }

  /** Not required if and only if no hook was run, partial if and only if one of them failed, completed otherwise. */
  lemma {:induction false} RollbackStatusTells(x: Execution)
    requires Finished(x)
    ensures x.rollbackStatus == NotRequired <==> x.rollback == []
    ensures x.rollbackStatus == Partial <==> exists p :: 0 <= p < |x.rollback| && x.rollback[p].status == Failed
  {
    if x.rollbackStatus == Partial {
      var u :| u in x.rollback && u.status == Failed;
      var p :| 0 <= p < |x.rollback| && x.rollback[p] == u;
    }
    forall p | 0 <= p < |x.rollback| && x.rollback[p].status == Failed ensures x.rollbackStatus == Partial { assert x.rollback[p] in x.rollback; }
  }

  // ---- the timeline and the artifacts ----

  /** What an event reports is what policy, approvers and runner answered. */
  lemma {:induction false} EventsTell(x: Execution, p: nat)
    requires Finished(x) && p < |x.timeline|
    ensures x.timeline[p].sequence == p + 1
    ensures match x.timeline[p].what
            case PolicyEvaluated(i, outcome) => outcome == if x.world.policy(i) == "" then "allow" else Lower(Trim(x.world.policy(i)))
            case ApprovalChecked(i, scope, ok) =>
              ok <==> if scope == Workflow then Given(x.pack.approval, x.world.workflow)
                      else i < |x.pack.steps| && Given(x.pack.steps[i].approval, x.world.decision(i))
            case AttemptResult(i, a, status) => AnswerIs(x.world.run(i, a, false), status)
            case RollbackFinished(i, status) => status == if x.world.run(i, 1, true).Success? then Succeeded else Failed
            case _ => true
  {
    x.RecordedMeans();
    assert Truthful(x.pack, x.world, x.timeline[p].what);
    AllowIsNormal();
  }

  lemma {:induction false} AllowIsNormal()
    ensures Lower(Trim("allow")) == "allow"
  {
    assert Trimmed("allow");
  }

  predicate AnswerIs(answer: Answer, status: StepStatus) {
    match answer
    case Success(_) => status == Succeeded
    case Failure(timeout) => status == if timeout then TimedOut else Failed
  }

  /** The evidence that a run of an action leaves: an error context if it failed, otherwise what it returned of output,
      errors, message and payload. */
  predicate LeftBy(answer: Answer, kind: ArtifactKind) {
    match answer
    case Failure(_) => kind == ErrorContext
    case Success(left) => kind in left && kind in {Stdout, Stderr, ActionMessage, ActionPayload}
  }

  /** The artifact belongs to the event. */
  predicate Documents(a: Artifact, w: World, e: Event) {
    match e.what
    case PolicyEvaluated(i, _) => a == Artifact(e.sequence, i, 0, PolicyRationale)
    case ApprovalChecked(i, _, ok) => a == Artifact(e.sequence, i, 0, ApprovalCheckpointData) || (!ok && a == Artifact(e.sequence, i, 0, ErrorContext))
    case AttemptResult(i, n, _) => a == Artifact(e.sequence, i, n, a.kind) && LeftBy(w.run(i, n, false), a.kind)
    case RollbackStarted(i) => a == Artifact(e.sequence, i, 1, a.kind) && LeftBy(w.run(i, 1, true), a.kind)
    case StepBlocked(i) => a == Artifact(e.sequence, i, 0, ErrorContext)
    case StepFinished(i, status, _) => status != Succeeded && a == Artifact(0, i, 0, ErrorContext)
    case _ => false
  }

  lemma {:induction false} CapturedIff(event: nat, step: nat, attempt: nat, left: set<ArtifactKind>, q: nat, a: Artifact)
    ensures a in Captured(event, step, attempt, left, q) <==> a == Artifact(event, step, attempt, a.kind) && a.kind in left && a.kind in KINDS[if q > |KINDS| then |KINDS| else q..]
    decreases |KINDS| - q
  {
    if q < |KINDS| {
      CapturedIff(event, step, attempt, left, q + 1, a);
      assert KINDS[q..] == [KINDS[q]] + KINDS[q + 1..];
    }
  }

  lemma {:induction false} KeptIff(event: nat, step: nat, attempt: nat, answer: Answer, a: Artifact)
    ensures a in Kept(event, step, attempt, answer) <==> a == Artifact(event, step, attempt, a.kind) && LeftBy(answer, a.kind)
  {
    if answer.Success? {
      CapturedIff(event, step, attempt, answer.left, 0, a);
      assert KINDS[0..] == KINDS;
    }
  }

  lemma {:induction false} EvidenceIff(w: World, e: Event, a: Artifact)
    ensures a in Evidence(w, e) <==> Documents(a, w, e)
  {
    match e.what
    case AttemptResult(i, n, _) => KeptIff(e.sequence, i, n, w.run(i, n, false), a);
    case RollbackStarted(i) => KeptIff(e.sequence, i, 1, w.run(i, 1, true), a);
    case _ =>
  }

  ghost predicate Documented(a: Artifact, w: World, t: seq<Event>) {
    exists p :: 0 <= p < |t| && Documents(a, w, t[p])
  }

  lemma {:induction false} DocumentedMore(a: Artifact, w: World, t: seq<Event>, e: Event)
    ensures Documented(a, w, t + [e]) <==> Documented(a, w, t) || Documents(a, w, e)
  {
    var all := t + [e];
    assert all[|t|] == e && forall p :: 0 <= p < |t| ==> all[p] == t[p];
    if Documented(a, w, t) {
      var p :| 0 <= p < |t| && Documents(a, w, t[p]);
      assert Documents(a, w, all[p]);
    }
    if Documents(a, w, e) { assert Documents(a, w, all[|t|]); }
  }

  lemma {:induction false} AllEvidenceIff(w: World, t: seq<Event>, a: Artifact)
    ensures a in AllEvidence(w, t) <==> Documented(a, w, t)
  {
    if t != [] {
      var front, last := t[..|t| - 1], t[|t| - 1];
      assert t == front + [last];
      AllEvidenceIff(w, front, a);
      EvidenceIff(w, last, a);
      DocumentedMore(a, w, front, last);
    }
  }

  /** The artifacts of a finished execution are exactly those that document one of its events. */
  lemma {:induction false} ArtifactsTell(x: Execution, a: Artifact)
    requires Finished(x)
    ensures a in x.artifacts <==> Documented(a, x.world, x.timeline)
  {
    x.RecordedMeans();
    AllEvidenceIff(x.world, x.timeline, a);
  }
}
