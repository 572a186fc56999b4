/** The execution runtime of automation packs: the record it fills in place, and the loops of Start. */
module Executor {
  import opened Text
  import opened Saga
  import opened Timeline

  /** `event` is the sequence of the timeline event an artifact belongs to, 0 for none. */
  datatype Artifact = Artifact(event: nat, step: nat, attempt: nat, kind: ArtifactKind)

  datatype Category = ByPolicy | ByApproval | ByExecution

  /** Events are numbered from 1 in order. */
  predicate Numbered(t: seq<Event>) {
    forall p :: 0 <= p < |t| ==> t[p].sequence == p + 1
  }

  function One(wanted: bool, a: Artifact): seq<Artifact> {
    if wanted then [a] else []
  }

  /** The kinds of evidence of an action, in the order in which they are captured. */
  const KINDS := [Stdout, Stderr, ActionMessage, ActionPayload]

  /** The captured evidence, from the `q`th kind on. */
  function Captured(event: nat, step: nat, attempt: nat, left: set<ArtifactKind>, q: nat): seq<Artifact>
    decreases |KINDS| - q
  {
    if q >= |KINDS| then []
    else One(KINDS[q] in left, Artifact(event, step, attempt, KINDS[q])) + Captured(event, step, attempt, left, q + 1)
  }

  /** What an attempt or a rollback leaves behind. */
  function Kept(event: nat, step: nat, attempt: nat, answer: Answer): seq<Artifact> {
    match answer
    case Success(left) => Captured(event, step, attempt, left, 0)
    case Failure(_) => [Artifact(event, step, attempt, ErrorContext)]
  }

  /** The artifacts that belong to one event. The summary of a failed execution names no event: it follows the end of the
      step that failed. */
  function Evidence(w: World, e: Event): seq<Artifact> {
    match e.what
    case PolicyEvaluated(i, _) => [Artifact(e.sequence, i, 0, PolicyRationale)]
    case ApprovalChecked(i, _, ok) => [Artifact(e.sequence, i, 0, ApprovalCheckpointData)] + One(!ok, Artifact(e.sequence, i, 0, ErrorContext))
    case AttemptResult(i, a, _) => Kept(e.sequence, i, a, w.run(i, a, false))
    case StepBlocked(i) => [Artifact(e.sequence, i, 0, ErrorContext)]
    case StepFinished(i, status, _) => One(status != Succeeded, Artifact(0, i, 0, ErrorContext))
    case RollbackStarted(i) => Kept(e.sequence, i, 1, w.run(i, 1, true))
    case _ => []
  }

  function AllEvidence(w: World, t: seq<Event>): seq<Artifact> {
    if t == [] then [] else AllEvidence(w, t[..|t| - 1]) + Evidence(w, t[|t| - 1])
  }

  lemma {:induction false} EvidenceMore(w: World, t: seq<Event>, e: Event)
    ensures AllEvidence(w, t + [e]) == AllEvidence(w, t) + Evidence(w, e)
  {
    assert (t + [e])[..|t|] == t;
  }

  lemma {:induction false} Owe<T>(done: seq<T>, owed: seq<T>, more: seq<T>)
    requires owed == [] || more == []
    ensures done + (if owed == [] then more else owed) == (done + owed) + more
  {}

  predicate About(what: What, i: nat) {
    !what.ExecutionStarted? && !what.ExecutionFinished? && what.step == i
  }

  predicate Linked(a: Artifact, t: seq<Event>) {
    0 < a.event <= |t| && About(t[a.event - 1].what, a.step)
  }

  /** The artifact reports the failure of a step as a whole. */
  ghost predicate Summary(a: Artifact, t: seq<Event>) {
    a.event == 0 && a.kind == ErrorContext
    && exists p :: 0 <= p < |t| && t[p].what.StepFinished? && t[p].what.step == a.step && t[p].what.status != Succeeded
  }

  lemma {:induction false} CapturedNames(event: nat, step: nat, attempt: nat, left: set<ArtifactKind>, q: nat, a: Artifact)
    requires a in Captured(event, step, attempt, left, q)
    ensures a.event == event && a.step == step && a.attempt == attempt
    decreases |KINDS| - q
  {
    if a !in One(KINDS[q] in left, Artifact(event, step, attempt, KINDS[q])) {
      CapturedNames(event, step, attempt, left, q + 1, a);
    }
  }

  lemma {:induction false} KeptNames(event: nat, step: nat, attempt: nat, answer: Answer, a: Artifact)
    requires a in Kept(event, step, attempt, answer)
    ensures a.event == event && a.step == step && a.attempt == attempt
  {
    if answer.Success? { CapturedNames(event, step, attempt, answer.left, 0, a); }
  }

  lemma {:induction false} EvidenceNames(w: World, e: Event, a: Artifact)
    requires a in Evidence(w, e)
    ensures About(e.what, a.step)
    ensures a.event == e.sequence || (a.event == 0 && a.kind == ErrorContext && e.what.StepFinished? && e.what.status != Succeeded)
  {
    match e.what
    case AttemptResult(i, n, _) => KeptNames(e.sequence, i, n, w.run(i, n, false), a);
    case RollbackStarted(i) => KeptNames(e.sequence, i, 1, w.run(i, 1, true), a);
    case _ =>
  }

  /** Every artifact names an event of its own step, or is the summary of a step that failed. */
  lemma {:induction false} EvidenceIsLinked(w: World, t: seq<Event>, a: Artifact)
    requires Numbered(t) && a in AllEvidence(w, t)
    ensures Linked(a, t) || Summary(a, t)
    decreases |t|
  {
    var n := |t| - 1;
    if a in AllEvidence(w, t[..n]) {
      EvidenceIsLinked(w, t[..n], a);
      if Summary(a, t[..n]) {
        var p :| 0 <= p < n && t[..n][p].what.StepFinished? && t[..n][p].what.step == a.step && t[..n][p].what.status != Succeeded;
        assert t[p] == t[..n][p];
      }
    } else {
      EvidenceNames(w, t[n], a);
    }
  }

  /** Event `k` is numbered, tells the truth and takes the automaton from phase `k` to the next one. */
  predicate Moved(pack: Pack, w: World, phases: seq<Phase>, t: seq<Event>, k: nat)
    requires k < |t| && k + 1 < |phases|
  {
    t[k].sequence == k + 1 && Truthful(pack, w, t[k].what) && phases[k + 1] == Next(pack, phases[k], t[k].what)
  }

  ghost predicate Follows(pack: Pack, w: World, phases: seq<Phase>, t: seq<Event>) {
    && |phases| == |t| + 1 && phases[0] == Fresh
    && forall k {:trigger Moved(pack, w, phases, t, k)} :: 0 <= k < |t| ==> Moved(pack, w, phases, t, k)
  }

  lemma {:induction false} FollowsMore(pack: Pack, w: World, phases: seq<Phase>, t: seq<Event>, e: Event, next: Phase)
    requires Follows(pack, w, phases, t) && e.sequence == |t| + 1 && Truthful(pack, w, e.what) && Next(pack, phases[|t|], e.what) == next
    ensures Follows(pack, w, phases + [next], t + [e])
  {
    forall k | 0 <= k <= |t| ensures Moved(pack, w, phases + [next], t + [e], k) {
      if k < |t| { assert Moved(pack, w, phases, t, k); }
    }
  }

  lemma {:induction false} FollowsMeans(pack: Pack, w: World, phases: seq<Phase>, t: seq<Event>)
    requires Follows(pack, w, phases, t)
    ensures After(pack, t) == phases[|t|] && Numbered(t) && AllTruthful(pack, w, t)
    decreases |t|
  {
    if t != [] {
      var n := |t| - 1;
      var earlier, front := phases[..n + 1], t[..n];
      forall k | 0 <= k < n ensures Moved(pack, w, earlier, front, k) { assert Moved(pack, w, phases, t, k); }
      FollowsMeans(pack, w, earlier, front);
      assert Moved(pack, w, phases, t, n);
      TruthfulMore(pack, w, front, t[n]);
      assert t == front + [t[n]];
    }
  }

  class Execution {
    const pack: Pack
    const world: World
    var status: Status
    var steps: seq<StepState>
    var failure: Option<(nat, Category)>
    var rollbackStatus: RollbackStatus
    var rollback: seq<Undo>
    var timeline: seq<Event>
    var artifacts: seq<Artifact>

    // The artifacts of recorded events that are still to be attached.
    ghost var owed: seq<Artifact>

    // The phases that the timeline went through, the current one last.
    ghost var phases: seq<Phase>

    ghost function Now(): Phase reads this`phases {
      if phases == [] then Broken else phases[|phases| - 1]
    }

    /** The timeline is numbered, follows the protocol and tells the truth, and the artifacts are those of its events. */
    ghost predicate Recorded() reads this`timeline, this`phases, this`artifacts, this`owed {
      && Follows(pack, world, phases, timeline) && artifacts + owed == AllEvidence(world, timeline)
    }

    constructor (pack: Pack, world: World)
      ensures this.pack == pack && this.world == world
      ensures timeline == [] && phases == [Fresh] && artifacts == [] && rollback == [] && failure == None && owed == [] && status == ExecRunning
      ensures |steps| == |pack.steps| && forall i :: 0 <= i < |steps| ==> steps[i] == UNTOUCHED
    {
      this.pack, this.world := pack, world;
      status, failure, rollbackStatus := ExecRunning, None, NotRequired;
      steps := seq(|pack.steps|, i => UNTOUCHED);
      rollback, timeline, artifacts := [], [], [];
      owed := [];
      phases := [Fresh];
    }

    /** recordTimeline */
    method Record(what: What, ghost next: Phase) returns (id: nat)
      requires Recorded() && Next(pack, Now(), what) == next && Truthful(pack, world, what)
      requires owed == [] || Evidence(world, Event(|timeline| + 1, what)) == []
      modifies this`timeline, this`phases, this`owed
      ensures Recorded() && Now() == next
      ensures id == |timeline| && timeline == old(timeline) + [Event(id, what)]
      ensures owed == if old(owed) == [] then Evidence(world, Event(id, what)) else old(owed)
    {
      id := |timeline| + 1;
      ghost var e := Event(id, what);
      FollowsMore(pack, world, phases, timeline, e, next);
      EvidenceMore(world, timeline, e);
      Owe(artifacts, owed, Evidence(world, e));
      timeline, phases, owed := timeline + [Event(id, what)], phases + [next], if owed == [] then Evidence(world, e) else owed;
    }

    /** recordArtifact */
    method Attach(event: nat, step: nat, attempt: nat, kind: ArtifactKind)
      requires Recorded() && owed != [] && owed[0] == Artifact(event, step, attempt, kind)
      modifies this`artifacts, this`owed
      ensures Recorded() && owed == old(owed[1..]) && artifacts == old(artifacts) + [Artifact(event, step, attempt, kind)]
    {
      assert artifacts + owed == artifacts + [owed[0]] + owed[1..];
      artifacts, owed := artifacts + [Artifact(event, step, attempt, kind)], owed[1..];
    }

    /** captureActionArtifacts */
    method Capture(event: nat, step: nat, attempt: nat, left: set<ArtifactKind>)
      requires Recorded() && owed == Captured(event, step, attempt, left, 0)
      modifies this`artifacts, this`owed
      ensures Recorded() && owed == []
    {
      for q := 0 to |KINDS|
        invariant Recorded() && owed == Captured(event, step, attempt, left, q)
      {
        if KINDS[q] in left { Attach(event, step, attempt, KINDS[q]); }
      }
    }

    /** What the runner returned, or the error it failed with. */
    method KeepEvidence(event: nat, step: nat, attempt: nat, answer: Answer)
      requires Recorded() && owed == Kept(event, step, attempt, answer)
      modifies this`artifacts, this`owed
      ensures Recorded() && owed == []
    {
      if answer.Success? {
        Capture(event, step, attempt, answer.left);
      } else {
        Attach(event, step, attempt, ErrorContext);
      }
    }

    // ---- gates ----

    /** recordApprovalCheckpoint, and the error context of a refusal. */
    method Checkpoint(i: nat, scope: Scope, approved: bool)
      requires Recorded() && owed == [] && Now().Gated? && Now().step == i && Now().judged
      requires Due(pack, Now(), scope) && approved == Granted(pack, world, i, scope)
      modifies this`timeline, this`phases, this`artifacts, this`owed
      ensures Recorded() && owed == []
      ensures !approved ==> Now() == Refused(i)
      ensures approved ==> Now() == if scope == Workflow then old(Now()).(workflow := true) else old(Now()).(own := true)
    {
      ghost var gate := Now();
      var id := Record(ApprovalChecked(i, scope, approved), Asked(gate, scope, approved));
      var _ := Record(ApprovalDecided(i, scope, approved),
        if !approved then Refused(i) else if scope == Workflow then gate.(workflow := true) else gate.(own := true));
      Attach(id, i, 0, ApprovalCheckpointData);
      if !approved { Attach(id, i, 0, ErrorContext); }
    }

    /** Policy and approvals of a step that has just started. */
    method Pass(i: nat) returns (gate: Gate)
      requires Recorded() && owed == [] && i < |pack.steps| && Now() == Gated(i, false, false, false)
      modifies this`timeline, this`phases, this`artifacts, this`owed
      ensures Recorded() && owed == [] && gate == GateOf(pack, world, i)
      ensures gate == Open ==> MayAct(pack, Now()) && Now().step == i
      ensures gate != Open ==> Now() == Refused(i)
    {
      if !pack.steps[i].mutating { return Open; }
      var outcome := Outcome(world.policy(i));
      var id := Record(PolicyEvaluated(i, outcome), if outcome == DENY || outcome == QUEUE then Refused(i) else Gated(i, true, false, false));
      Attach(id, i, 0, PolicyRationale);
      if outcome == DENY { return Denied; }
      if outcome == QUEUE { return Queued; }
      if Required(pack.approval) {
        var ok := Approved(pack.approval.value, world.workflow);
        Checkpoint(i, Workflow, ok);
        if !ok { return WorkflowHeld; }
      }
      if Required(pack.steps[i].approval) {
        var ok := Approved(pack.steps[i].approval.value, world.decision(i));
        Checkpoint(i, Own, ok);
        if !ok { return StepHeld; }
      }
      gate := Open;
    }

    // ---- attempts ----

    /** One attempt and its result. */
    method Attempt(i: nat, attempt: nat) returns (answer: Answer)
      requires Recorded() && owed == [] && i < |steps| && Next(pack, Now(), AttemptStarted(i, attempt)) == Trying(i, attempt)
      modifies this`steps, this`timeline, this`phases, this`artifacts, this`owed
      ensures Recorded() && owed == []
      ensures answer == world.run(i, attempt, false) && Now() == Tried(i, attempt, StatusOf(answer))
      ensures steps == old(steps)[i := old(steps[i]).(attempts := attempt, history := old(steps[i]).history + [StatusOf(answer)])]
    {
      var _ := Record(AttemptStarted(i, attempt), Trying(i, attempt));
      answer := world.run(i, attempt, false);
      var status := StatusOf(answer);
      steps := steps[i := steps[i].(attempts := attempt, history := steps[i].history + [status])];
      var id := Record(AttemptResult(i, attempt, status), Tried(i, attempt, status));
      KeepEvidence(id, i, attempt, answer);
    }

    /** The step ends with the status of its last attempt. */
    method Conclude(i: nat, attempt: nat, verdict: StepStatus)
      requires Recorded() && owed == [] && i < |steps| == |pack.steps| && Now() == Tried(i, attempt, verdict) && steps[i].attempts == attempt
      requires verdict == Succeeded || attempt == MaxTries(pack.steps[i])
      modifies this`steps, this`timeline, this`phases, this`owed
      ensures Recorded() && owed == One(verdict != Succeeded, Artifact(0, i, 0, ErrorContext))
      ensures steps == old(steps)[i := old(steps[i]).(status := verdict)]
      ensures Now() == if verdict == Succeeded then Between(i + 1) else Stopped(i, i + 1, i, ExecFailed)
    {
      steps := steps[i := steps[i].(status := verdict)];
      var _ := Record(StepFinished(i, verdict, steps[i].attempts), if verdict == Succeeded then Between(i + 1) else Stopped(i, i + 1, i, ExecFailed));
    }

    /** The retry loop: it ends with the first success, or the last attempt allowed. */
    method Retry(i: nat) returns (attempt: nat, verdict: StepStatus)
      requires Recorded() && owed == [] && i < |pack.steps| == |steps| && steps[i] == UNTOUCHED.(status := Running)
      requires Next(pack, Now(), AttemptStarted(i, 1)) == Trying(i, 1)
      modifies this`steps, this`timeline, this`phases, this`artifacts, this`owed
      ensures Recorded() && owed == [] && Now() == Tried(i, attempt, verdict) && verdict == StatusOf(world.run(i, attempt, false))
      ensures attempt == LastTry(world, i, 1, MaxTries(pack.steps[i])) && (verdict == Succeeded || attempt == MaxTries(pack.steps[i]))
      ensures steps == old(steps)[i := StepState(Running, attempt, History(world, i, attempt), None)]
    {
      var max := MaxTries(pack.steps[i]);
      attempt := 1;
      assert History(world, i, 0) == [];
      while true
        invariant Recorded() && owed == [] && 1 <= attempt <= max && |steps| == |old(steps)|
        invariant Next(pack, Now(), AttemptStarted(i, attempt)) == Trying(i, attempt)
        invariant steps[i] == StepState(Running, attempt - 1, History(world, i, attempt - 1), None)
        invariant forall j :: 0 <= j < |steps| && j != i ==> steps[j] == old(steps[j])
        invariant LastTry(world, i, attempt, max) == LastTry(world, i, 1, max)
        decreases max - attempt
      {
        var answer := Attempt(i, attempt);
        HistoryOne(world, i, attempt);
        verdict := StatusOf(answer);
        if answer.Success? || attempt == max { return; }
        attempt := attempt + 1;
      }
    }

    /** A step that passed its gates. */
    method Try(i: nat) returns (verdict: StepStatus)
      requires Recorded() && owed == [] && i < |pack.steps| == |steps| && steps[i] == UNTOUCHED.(status := Running)
      requires GateOf(pack, world, i) == Open && MayAct(pack, Now()) && Now().step == i
      modifies this`steps, this`timeline, this`phases, this`artifacts, this`owed
      ensures Recorded() && owed == One(verdict != Succeeded, Artifact(0, i, 0, ErrorContext)) && verdict == Verdict(pack, world, i)
      ensures steps == old(steps)[i := Ran(pack, world, i)]
      ensures Now() == if verdict == Succeeded then Between(i + 1) else Stopped(i, i + 1, i, ExecFailed)
    {
      var attempt;
      attempt, verdict := Retry(i);
      Conclude(i, attempt, verdict);
    }

    // ---- an execution that does not succeed ----

    /** markRemainingSkipped */
    method SkipRemaining(k: nat)
      requires Recorded() && owed == [] && k < |pack.steps| == |steps|
      requires Now().Stopped? && Now().at == k && Now().skipped == k + 1
      requires forall i :: k < i < |steps| ==> steps[i] == UNTOUCHED
      modifies this`steps, this`timeline, this`phases, this`owed
      ensures Recorded() && owed == [] && Now() == old(Now()).(skipped := |pack.steps|)
      ensures |steps| == |old(steps)| && forall i :: 0 <= i < |steps| ==> steps[i] == if i <= k then old(steps[i]) else UNTOUCHED.(status := Skipped)
    {
      for i := k + 1 to |steps|
        invariant Recorded() && owed == [] && |steps| == |old(steps)| && Now() == old(Now()).(skipped := i)
        invariant forall j :: 0 <= j < |steps| ==> steps[j] == if k < j < i then UNTOUCHED.(status := Skipped) else old(steps[j])
      {
        steps := steps[i := steps[i].(status := Skipped)];
        var _ := Record(StepSkipped(i), old(Now()).(skipped := i + 1));
      }
    }

    /** One rollback hook, as far as the timeline and the artifacts go. */
    method RunHook(i: nat, ghost k: nat, ghost below: nat, ghost outcome: Status) returns (status: StepStatus)
      requires Recorded() && owed == [] && i < |pack.steps| && Now() == Stopped(k, |pack.steps|, below, outcome)
      requires i < below && pack.steps[i].hook && NoHook(pack, i + 1, below)
      modifies this`timeline, this`phases, this`artifacts, this`owed
      ensures Recorded() && owed == [] && status == UndoStatus(world, i) && Now() == Stopped(k, |pack.steps|, i, outcome)
    {
      var id := Record(RollbackStarted(i), Undoing(k, i, outcome));
      var answer := world.run(i, 1, true);
      status := if answer.Success? then Succeeded else Failed;
      KeepEvidence(id, i, 1, answer);
      var _ := Record(RollbackFinished(i, status), Stopped(k, |pack.steps|, i, outcome));
    }

    /** One turn of the rollback loop: a step without a hook is passed over. */
    method UndoOne(i: nat, ghost k: nat, ghost below: nat, ghost outcome: Status) returns (ghost below': nat)
      requires Recorded() && owed == [] && i < |steps| == |pack.steps| && Now() == Stopped(k, |pack.steps|, below, outcome)
      requires i < below && NoHook(pack, i + 1, below)
      modifies this`steps, this`rollback, this`rollbackStatus, this`timeline, this`phases, this`artifacts, this`owed
      ensures Recorded() && owed == [] && Now() == Stopped(k, |pack.steps|, below', outcome) && i <= below' && NoHook(pack, i, below')
      ensures rollback == old(rollback) + HookOf(pack, world, i)
      ensures rollbackStatus == if AnyFailed(HookOf(pack, world, i)) then Partial else old(rollbackStatus)
      ensures steps == old(steps)[i := HooksRun(pack, world, old(steps[i]), i, i + 1, i)]
    {
      below' := below;
      if pack.steps[i].hook {
        var result := RunHook(i, k, below, outcome);
        below' := i;
        assert Undo(i, result) in HookOf(pack, world, i);
        if result == Failed { rollbackStatus := Partial; }
        rollback := rollback + [Undo(i, result)];
        steps := steps[i := steps[i].(undone := Some(result))];
      }
    }

    /** runRollbackChain over the steps that succeeded, the last one first. */
    method Unwind(k: nat, succeeded: seq<nat>, ghost outcome: Status) returns (ghost below: nat)
      requires Recorded() && owed == [] && k < |pack.steps| == |steps| && rollback == []
      requires |succeeded| == k && forall i :: 0 <= i < k ==> succeeded[i] == i
      requires Now() == Stopped(k, |pack.steps|, k, outcome)
      modifies this`steps, this`rollback, this`rollbackStatus, this`timeline, this`phases, this`artifacts, this`owed
      ensures Recorded() && owed == [] && Now() == Stopped(k, |pack.steps|, below, outcome) && NoHook(pack, 0, below)
      ensures rollback == Unwound(pack, world, k) && rollbackStatus == RollbackOutcome(rollback)
      ensures |steps| == |old(steps)| && forall i: nat :: i < |steps| ==> steps[i] == HooksRun(pack, world, old(steps[i]), 0, k, i)
    {
      below := k;
      if |succeeded| == 0 {
        rollbackStatus := NotRequired;
        return;
      }
      rollbackStatus := Completed;
      var idx := |succeeded|;
      while idx > 0
        invariant 0 <= idx <= k && Recorded() && owed == [] && |steps| == |old(steps)|
        invariant Now() == Stopped(k, |pack.steps|, below, outcome) && idx <= below && NoHook(pack, idx, below)
        invariant rollback + Unwound(pack, world, idx) == Unwound(pack, world, k)
        invariant rollbackStatus == if AnyFailed(rollback) then Partial else Completed
        invariant forall i: nat :: i < |steps| ==> steps[i] == HooksRun(pack, world, old(steps[i]), idx, k, i)
      {
        idx := idx - 1;
        ghost var done := rollback;
        below := UndoOne(succeeded[idx], k, below, outcome);
        Regroup(done, HookOf(pack, world, idx), Unwound(pack, world, idx));
        AnyFailedMore(done, HookOf(pack, world, idx));
      }
      assert rollback + [] == rollback;
      if |rollback| == 0 { rollbackStatus := NotRequired; }
    }

    /** failExecution and blockExecution from the skipping on. */
    method Wind(k: nat, succeeded: seq<nat>, result: Status)
      requires Recorded() && owed == [] && k < |pack.steps| == |steps| && rollback == [] && result in {ExecFailed, ExecBlocked}
      requires |succeeded| == k && forall i :: 0 <= i < k ==> succeeded[i] == i
      requires Now() == Stopped(k, k + 1, k, result)
      requires forall i: nat :: i < |steps| ==> steps[i] == if i <= k then Ran(pack, world, i) else UNTOUCHED
      modifies this`steps, this`rollback, this`rollbackStatus, this`timeline, this`phases, this`artifacts, this`owed
      ensures Recorded() && owed == [] && Now() == Closed(result)
      ensures rollback == Unwound(pack, world, k) && rollbackStatus == RollbackOutcome(rollback)
      ensures |steps| == |old(steps)| && forall i: nat :: i < |steps| ==> steps[i] == Final(pack, world, k, i)
    {
      SkipRemaining(k);
      ghost var _ := Unwind(k, succeeded, result);
      var _ := Record(ExecutionFinished(result), Closed(result));
    }

    /** The step is blocked: that is all it ever did. */
    method MarkBlocked(k: nat)
      requires Recorded() && owed == [] && k < |pack.steps| == |steps| && Now() == Refused(k) && GateOf(pack, world, k) != Open
      requires steps[k] == UNTOUCHED.(status := Running)
      modifies this`steps, this`timeline, this`phases, this`artifacts, this`owed
      ensures Recorded() && owed == [] && Now() == Stopped(k, k + 1, k, ExecBlocked)
      ensures |steps| == |old(steps)| && steps[k] == Ran(pack, world, k) && forall i :: 0 <= i < |steps| && i != k ==> steps[i] == old(steps[i])
    {
      BlockedRan(pack, world, k);
      steps := steps[k := steps[k].(status := Blocked)];
      var id := Record(StepBlocked(k), Stopped(k, k + 1, k, ExecBlocked));
      Attach(id, k, 0, ErrorContext);
    }

    /** blockExecution */
    method Block(k: nat, category: Category, succeeded: seq<nat>)
      requires Recorded() && owed == [] && k < |pack.steps| == |steps| && rollback == [] && Now() == Refused(k)
      requires |succeeded| == k && forall i :: 0 <= i < k ==> succeeded[i] == i
      requires GateOf(pack, world, k) != Open && Some((k, category)) == FailureAt(pack, world, k)
      requires steps[k] == UNTOUCHED.(status := Running)
      requires forall i: nat :: i < |steps| && i != k ==> steps[i] == if i < k then Ran(pack, world, i) else UNTOUCHED
      modifies this`status, this`failure, this`steps, this`rollback, this`rollbackStatus, this`timeline, this`phases, this`artifacts, this`owed
      ensures Ended(k)
    {
      MarkBlocked(k);
      status, failure := ExecBlocked, Some((k, category));
      Wind(k, succeeded, ExecBlocked);
    }

    /** failExecution */
    method Fail(k: nat, succeeded: seq<nat>)
      requires Recorded() && owed == [Artifact(0, k, 0, ErrorContext)] && k < |pack.steps| == |steps| && rollback == []
      requires |succeeded| == k && forall i :: 0 <= i < k ==> succeeded[i] == i
      requires Now() == Stopped(k, k + 1, k, ExecFailed) && GateOf(pack, world, k) == Open && Verdict(pack, world, k) != Succeeded
      requires forall i: nat :: i < |steps| ==> steps[i] == if i <= k then Ran(pack, world, i) else UNTOUCHED
      modifies this`status, this`failure, this`steps, this`rollback, this`rollbackStatus, this`timeline, this`phases, this`artifacts, this`owed
      ensures Ended(k)
    {
      status, failure := ExecFailed, Some((k, ByExecution));
      Attach(0, k, 0, ErrorContext);
      Wind(k, succeeded, ExecFailed);
    }

    /** About to start step `i`: the ones before it have succeeded. */
    ghost predicate Ready(i: nat, succeeded: seq<nat>)
      reads this
    {
      && Recorded() && owed == [] && failure == None && rollback == [] && Now() == Between(i)
      && i <= |pack.steps| == |steps| && |succeeded| == i && (forall j :: 0 <= j < i ==> succeeded[j] == j)
      && (forall j: nat :: j < |steps| ==> steps[j] == if j < i then Ran(pack, world, j) else UNTOUCHED)
    }

    /** The record of an execution that stopped at `k`, or completed all of its steps. */
    ghost predicate Ended(k: nat)
      reads this
    {
      && k <= |pack.steps| == |steps| && Recorded() && owed == [] && Now() == Closed(status)
      && status == StatusAt(pack, world, k) && failure == FailureAt(pack, world, k)
      && (forall i: nat :: i < |steps| ==> steps[i] == Final(pack, world, k, i))
      && rollback == (if k == |pack.steps| then [] else Unwound(pack, world, k))
      && rollbackStatus == RollbackOutcome(rollback)
    }

    /** The step is started and its gates are evaluated. */
    method Enter(i: nat) returns (gate: Gate)
      requires Recorded() && owed == [] && i < |pack.steps| == |steps| && Now() == Between(i)
      modifies this`steps, this`timeline, this`phases, this`artifacts, this`owed
      ensures Recorded() && owed == [] && gate == GateOf(pack, world, i)
      ensures gate == Open ==> MayAct(pack, Now()) && Now().step == i
      ensures gate != Open ==> Now() == Refused(i)
      ensures steps == old(steps)[i := old(steps[i]).(status := Running)]
    {
      steps := steps[i := steps[i].(status := Running)];
      var _ := Record(StepStarted(i), Gated(i, false, false, false));
      gate := Pass(i);
    }

    /** One turn of the loop over the steps. */
    method RunStep(i: nat, succeeded: seq<nat>) returns (ok: bool)
      requires i < |pack.steps| && Ready(i, succeeded)
      modifies this
      ensures ok <==> Verdict(pack, world, i) == Succeeded
      ensures if ok then Ready(i + 1, succeeded + [i]) else Ended(i)
    {
      var gate := Enter(i);
      if gate != Open {
        Block(i, if gate.Denied? || gate.Queued? then ByPolicy else ByApproval, succeeded);
        return false;
      }
      var verdict := Try(i);
      if verdict != Succeeded {
        Fail(i, succeeded);
        return false;
      }
      ok := true;
    }

    method Begin()
      requires timeline == [] && phases == [Fresh] && artifacts == [] && rollback == [] && failure == None && owed == []
      requires |steps| == |pack.steps| && forall i :: 0 <= i < |steps| ==> steps[i] == UNTOUCHED
      modifies this`timeline, this`phases, this`owed
      ensures Ready(0, [])
    {
      var _ := Record(ExecutionStarted, Between(0));
    }

    /** All steps have succeeded. */
    method Complete(succeeded: seq<nat>)
      requires Ready(|pack.steps|, succeeded)
      modifies this`status, this`rollbackStatus, this`timeline, this`phases, this`owed
      ensures Ended(|pack.steps|)
    {
      status, rollbackStatus := ExecSucceeded, NotRequired;
      var _ := Record(ExecutionFinished(ExecSucceeded), Closed(ExecSucceeded));
    }

    lemma {:induction false} RecordedMeans()
      requires Recorded() && owed == []
      ensures After(pack, timeline) == Now() && Numbered(timeline) && AllTruthful(pack, world, timeline)
      ensures artifacts == AllEvidence(world, timeline)
    {
      FollowsMeans(pack, world, phases, timeline);
      assert artifacts + [] == artifacts;
    }

    /** Start, once the definition is found and its inputs are resolved: the whole execution is determined by the automation pack and
        by what the world answers. The steps succeed up to the first one that does not; that one keeps its own verdict;
        the rest are skipped; the hooks of those that succeeded run in the reverse order. */
    method Start()
      requires timeline == [] && phases == [Fresh] && artifacts == [] && rollback == [] && failure == None && owed == [] && status == ExecRunning
      requires |steps| == |pack.steps| && forall i :: 0 <= i < |steps| ==> steps[i] == UNTOUCHED
      modifies this
      ensures Ended(Stop(pack, world)) && After(pack, timeline) == Closed(status)
      ensures Numbered(timeline) && AllTruthful(pack, world, timeline) && artifacts == AllEvidence(world, timeline)
    {
      Begin();
      var succeeded: seq<nat> := [];
      for i := 0 to |pack.steps|
        invariant Ready(i, succeeded) && Stop(pack, world) == StopAt(pack, world, i)
      {
        var ok := RunStep(i, succeeded);
        if !ok {
          RecordedMeans();
          return;
        }
        succeeded := succeeded + [i];
      }
      Complete(succeeded);
      RecordedMeans();
    }
  }

  function FailureAt(pack: Pack, w: World, k: nat): Option<(nat, Category)>
    requires k <= |pack.steps|
  {
    if k == |pack.steps| then None
    else
      match GateOf(pack, w, k)
      case Open => Some((k, ByExecution))
      case Denied => Some((k, ByPolicy))
      case Queued => Some((k, ByPolicy))
      case _ => Some((k, ByApproval))
  }

  lemma {:induction false} AnyFailedMore(undos: seq<Undo>, more: seq<Undo>)
    ensures AnyFailed(undos + more) <==> AnyFailed(undos) || AnyFailed(more)
  {
    forall u ensures u in undos + more <==> u in undos || u in more {}
  }

  lemma {:induction false} Regroup<T>(a: seq<T>, b: seq<T>, c: seq<T>)
    ensures (a + b) + c == a + (b + c)
  {}

  /** A step once the hooks from `low` up to `k` have run. */
  function HooksRun(pack: Pack, w: World, before: StepState, low: nat, k: nat, i: nat): StepState
    requires i < |pack.steps|
  {
    if low <= i < k && pack.steps[i].hook then before.(undone := Some(UndoStatus(w, i))) else before
  }

  lemma {:induction false} BlockedRan(pack: Pack, w: World, k: nat)
    requires k < |pack.steps| && GateOf(pack, w, k) != Open
    ensures Ran(pack, w, k) == StepState(Blocked, 0, [], None)
  {
    assert History(w, k, 0) == [];
  }

  lemma {:induction false} HistoryOne(w: World, i: nat, attempt: nat)
    requires attempt >= 1
    ensures History(w, i, attempt) == History(w, i, attempt - 1) + [StatusOf(w.run(i, attempt, false))]
  {}
}
