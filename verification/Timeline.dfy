/** The timeline of an execution as a protocol: an automaton that accepts exactly the orders of events an execution may
    produce, and what every accepted timeline guarantees. */
module Timeline {
  import opened Text
  import opened Saga

  datatype Scope = Workflow | Own

  /** The type, step, attempt and status of a timeline event. */
  datatype What =
    | ExecutionStarted
    | StepStarted(step: nat)
    | PolicyEvaluated(step: nat, outcome: string)
    | ApprovalChecked(step: nat, scope: Scope, approved: bool)
    | ApprovalDecided(step: nat, scope: Scope, approved: bool)
    | AttemptStarted(step: nat, attempt: nat)
    | AttemptResult(step: nat, attempt: nat, status: StepStatus)
    | StepFinished(step: nat, status: StepStatus, attempts: nat)
    | StepBlocked(step: nat)
    | StepSkipped(step: nat)
    | RollbackStarted(step: nat)
    | RollbackFinished(step: nat, status: StepStatus)
    | ExecutionFinished(result: Status)

  datatype Event = Event(sequence: nat, what: What)

  /** Where an execution stands. */
  datatype Phase =
    | Fresh
    | Between(next: nat)
    | Gated(step: nat, judged: bool, workflow: bool, own: bool)
    | Asked(gate: Phase, scope: Scope, approved: bool)
    | Refused(step: nat)
    | Trying(step: nat, attempt: nat)
    | Tried(step: nat, attempt: nat, status: StepStatus)
    | Stopped(at: nat, skipped: nat, below: nat, outcome: Status)
    | Undoing(at: nat, step: nat, outcome: Status)
    | Closed(outcome: Status)
    | Broken

  /** Everything a step must have shown before its first attempt. */
  predicate MayAct(pack: Pack, ph: Phase) {
    && ph.Gated? && ph.step < |pack.steps|
    && (pack.steps[ph.step].mutating ==>
          && ph.judged
          && (Required(pack.approval) ==> ph.workflow)
          && (Required(pack.steps[ph.step].approval) ==> ph.own))
  }

  /** The approval that is asked for next: the workflow's own, if it requires one, then the step's. */
  predicate Due(pack: Pack, ph: Phase, scope: Scope)
    requires ph.Gated?
  {
    && ph.step < |pack.steps|
    && (scope == Workflow ==> Required(pack.approval) && !ph.workflow && !ph.own)
    && (scope == Own ==> Required(pack.steps[ph.step].approval) && !ph.own && (Required(pack.approval) ==> ph.workflow))
  }

  /** No hook is left between `low` and `high`. */
  predicate NoHook(pack: Pack, low: nat, high: nat) {
    forall j :: low <= j < high && j < |pack.steps| ==> !pack.steps[j].hook
  }

  function Next(pack: Pack, ph: Phase, what: What): Phase {
    match what
    case ExecutionStarted => if ph.Fresh? then Between(0) else Broken
    case StepStarted(i) => if ph == Between(i) && i < |pack.steps| then Gated(i, false, false, false) else Broken
    case PolicyEvaluated(i, outcome) =>
      if ph == Gated(i, false, false, false) && i < |pack.steps| && pack.steps[i].mutating
      then (if outcome == DENY || outcome == QUEUE then Refused(i) else ph.(judged := true)) else Broken
    case ApprovalChecked(i, scope, ok) => if ph.Gated? && ph.step == i && ph.judged && Due(pack, ph, scope) then Asked(ph, scope, ok) else Broken
    case ApprovalDecided(i, scope, ok) =>
      if ph.Asked? && ph.gate.Gated? && ph.gate.step == i && ph.scope == scope && ph.approved == ok
      then (if !ok then Refused(i) else if scope == Workflow then ph.gate.(workflow := true) else ph.gate.(own := true))
      else Broken
    case StepBlocked(i) => if ph == Refused(i) then Stopped(i, i + 1, i, ExecBlocked) else Broken
    case AttemptStarted(i, a) =>
      if a == 1 && MayAct(pack, ph) && ph.step == i then Trying(i, 1)
      else if ph.Tried? && ph.step == i && ph.status != Succeeded && a == ph.attempt + 1
              && i < |pack.steps| && a <= MaxTries(pack.steps[i]) then Trying(i, a)
      else Broken
    case AttemptResult(i, a, status) =>
      if ph == Trying(i, a) && status in {Succeeded, Failed, TimedOut} then Tried(i, a, status) else Broken
    case StepFinished(i, status, attempts) =>
      if ph.Tried? && ph.step == i && ph.status == status && ph.attempt == attempts then
        if status == Succeeded then Between(i + 1)
        else if i < |pack.steps| && ph.attempt == MaxTries(pack.steps[i]) then Stopped(i, i + 1, i, ExecFailed)
        else Broken
      else Broken
    case StepSkipped(i) =>
      if ph.Stopped? && ph.skipped == i && i < |pack.steps| then ph.(skipped := i + 1) else Broken
    case RollbackStarted(i) =>
      if ph.Stopped? && ph.skipped == |pack.steps| && i < ph.below && i < |pack.steps| && pack.steps[i].hook && NoHook(pack, i + 1, ph.below)
      then Undoing(ph.at, i, ph.outcome) else Broken
    case RollbackFinished(i, status) =>
      if ph.Undoing? && ph.step == i && status in {Succeeded, Failed} then Stopped(ph.at, |pack.steps|, i, ph.outcome) else Broken
    case ExecutionFinished(status) =>
      if ph == Between(|pack.steps|) && status == ExecSucceeded then Closed(status)
      else if ph.Stopped? && ph.skipped == |pack.steps| && NoHook(pack, 0, ph.below) && status == ph.outcome then Closed(status)
      else Broken
  }

  function After(pack: Pack, t: seq<Event>): Phase {
    if t == [] then Fresh else Next(pack, After(pack, t[..|t| - 1]), t[|t| - 1].what)
  }

  lemma {:induction false} AfterAppend(pack: Pack, t: seq<Event>, e: Event)
    ensures After(pack, t + [e]) == Next(pack, After(pack, t), e.what)
  {
    assert (t + [e])[..|t|] == t;
  }

  /** A broken timeline stays broken, so every prefix of a good one is good. */
  lemma {:induction false} PrefixGood(pack: Pack, t: seq<Event>, n: nat)
    requires n <= |t| && After(pack, t) != Broken
    ensures After(pack, t[..n]) != Broken
  {
    if n < |t| {
      PrefixGood(pack, t[..|t| - 1], n);
      assert t[..|t| - 1][..n] == t[..n];
    } else {
      assert t[..n] == t;
    }
  }

  // ---- what a phase knows about the events before it ----

  ghost predicate Saw(t: seq<Event>, what: What) {
    exists p :: 0 <= p < |t| && t[p].what == what
  }

  ghost predicate SawPolicy(t: seq<Event>, i: nat) {
    exists p :: 0 <= p < |t| && t[p].what.PolicyEvaluated? && t[p].what.step == i && t[p].what.outcome != DENY && t[p].what.outcome != QUEUE
  }

  lemma {:induction false} SawMore(t: seq<Event>, e: Event, what: What)
    ensures Saw(t + [e], what) <==> Saw(t, what) || e.what == what
  {
    var t' := t + [e];
    if Saw(t', what) {
      var p :| 0 <= p < |t'| && t'[p].what == what;
      if p < |t| { assert t[p] == t'[p]; }
    }
    if Saw(t, what) {
      var p :| 0 <= p < |t| && t[p].what == what;
      assert t'[p].what == what;
    }
    if e.what == what { assert t'[|t|].what == what; }
  }

  /** The event says that the step succeeded. */
  predicate Succeeds(what: What, j: nat) {
    what.StepFinished? && what.step == j && what.status == Succeeded
  }

  ghost predicate SawSuccess(t: seq<Event>, j: nat) {
    exists p :: 0 <= p < |t| && Succeeds(t[p].what, j)
  }

  lemma {:induction false} SawSuccessMore(t: seq<Event>, e: Event, j: nat)
    ensures SawSuccess(t + [e], j) <==> SawSuccess(t, j) || Succeeds(e.what, j)
  {
    var t' := t + [e];
    if SawSuccess(t', j) {
      var p :| 0 <= p < |t'| && Succeeds(t'[p].what, j);
      if p < |t| { assert t[p] == t'[p]; }
    }
    if SawSuccess(t, j) {
      var p :| 0 <= p < |t| && Succeeds(t[p].what, j);
      assert t'[p] == t[p];
    }
    assert t'[|t|] == e;
  }

  lemma {:induction false} SawPolicyMore(t: seq<Event>, e: Event, i: nat)
    ensures SawPolicy(t, i) ==> SawPolicy(t + [e], i)
    ensures e.what.PolicyEvaluated? && e.what.step == i && e.what.outcome != DENY && e.what.outcome != QUEUE ==> SawPolicy(t + [e], i)
  {
    var t' := t + [e];
    if SawPolicy(t, i) {
      var p :| 0 <= p < |t| && t[p].what.PolicyEvaluated? && t[p].what.step == i && t[p].what.outcome != DENY && t[p].what.outcome != QUEUE;
      assert t'[p] == t[p];
    }
    assert t'[|t|] == e;
  }

  /** The step a forward phase is about, and how many steps have succeeded before it. */
  function Done(ph: Phase): nat {
    match ph
    case Fresh => 0
    case Between(n) => n
    case Gated(i, _, _, _) => i
    case Asked(gate, _, _) => Done(gate)
    case Refused(i) => i
    case Trying(i, _) => i
    case Tried(i, _, _) => i
    case Stopped(at, _, _, _) => at
    case Undoing(at, _, _) => at
    case Closed(_) => 0
    case Broken => 0
  }

  /** The steps from here up to where the execution stopped have had their hooks run. */
  function UndoneFrom(ph: Phase): nat {
    match ph
    case Stopped(_, _, below, _) => below
    case Undoing(_, step, _) => step
    case _ => Done(ph)
  }

  /** The gates a phase claims were passed really were. */
  ghost predicate GatesSeen(t: seq<Event>, ph: Phase) {
    match ph
    case Gated(i, judged, workflow, own) =>
      && (judged ==> SawPolicy(t, i))
      && (workflow ==> Saw(t, ApprovalDecided(i, Workflow, true)))
      && (own ==> Saw(t, ApprovalDecided(i, Own, true)))
    case Asked(gate, _, _) => gate.Gated? && GatesSeen(t, gate)
    case _ => true
  }

  lemma {:induction false} GatesAreSeen(pack: Pack, t: seq<Event>)
    ensures GatesSeen(t, After(pack, t))
    decreases |t|
  {
    if t != [] {
      var before, e := t[..|t| - 1], t[|t| - 1];
      GatesAreSeen(pack, before);
      GatesStaySeen(before, e, After(pack, before));
      assert t == before + [e];
      GateStep(pack, before, e);
    }
  }

  lemma {:induction false} GatesStaySeen(t: seq<Event>, e: Event, ph: Phase)
    requires GatesSeen(t, ph)
    ensures GatesSeen(t + [e], ph)
  {
    var gate := if ph.Asked? then ph.gate else ph;
    if gate.Gated? {
      SawPolicyMore(t, e, gate.step);
      SawMore(t, e, ApprovalDecided(gate.step, Workflow, true));
      SawMore(t, e, ApprovalDecided(gate.step, Own, true));
    }
  }

  lemma {:induction false} GateStep(pack: Pack, t: seq<Event>, e: Event)
    requires GatesSeen(t + [e], After(pack, t))
    ensures GatesSeen(t + [e], Next(pack, After(pack, t), e.what))
  {
    match e.what
    case PolicyEvaluated(i, _) => SawPolicyMore(t, e, i);
    case ApprovalDecided(i, _, _) =>
      SawMore(t, e, ApprovalDecided(i, Workflow, true));
      SawMore(t, e, ApprovalDecided(i, Own, true));
    case _ =>
  }

  /** One event of a good timeline is one good step of the automaton. */
  lemma {:induction false} StepAt(pack: Pack, t: seq<Event>, p: nat)
    requires After(pack, t) != Broken && p < |t|
    ensures After(pack, t[..p]) != Broken
    ensures After(pack, t[..p + 1]) == Next(pack, After(pack, t[..p]), t[p].what) != Broken
  {
    PrefixGood(pack, t, p);
    PrefixGood(pack, t, p + 1);
    AfterNext(pack, t, p);
  }

  lemma {:induction false} AfterNext(pack: Pack, t: seq<Event>, p: nat)
    requires p < |t|
    ensures After(pack, t[..p + 1]) == Next(pack, After(pack, t[..p]), t[p].what)
  {
    assert t[..p + 1] == t[..p] + [t[p]];
    AfterAppend(pack, t[..p], t[p]);
  }

  /** No mutating step acts before its policy let it through and every approval it requires was given. */
  lemma {:induction false} ActsOnlyWhenCleared(pack: Pack, t: seq<Event>, p: nat)
    requires After(pack, t) != Broken && p < |t| && t[p].what.AttemptStarted? && t[p].what.attempt == 1
    ensures var i := t[p].what.step;
            i < |pack.steps| && (pack.steps[i].mutating ==>
              && SawPolicy(t[..p], i)
              && (Required(pack.approval) ==> Saw(t[..p], ApprovalDecided(i, Workflow, true)))
              && (Required(pack.steps[i].approval) ==> Saw(t[..p], ApprovalDecided(i, Own, true))))
  {
    StepAt(pack, t, p);
    TriedPositive(pack, t[..p]);
    GatesAreSeen(pack, t[..p]);
  }

  lemma {:induction false} TriedPositive(pack: Pack, t: seq<Event>)
    ensures var ph := After(pack, t); (ph.Tried? || ph.Trying? ==> ph.attempt >= 1)
  {
    if t != [] { TriedPositive(pack, t[..|t| - 1]); }
  }

  /** An attempt stays within the retries of its step and is answered by the very next event. */
  lemma {:induction false} AttemptAnswered(pack: Pack, t: seq<Event>, p: nat)
    requires After(pack, t) != Broken && p < |t| && t[p].what.AttemptStarted?
    ensures var AttemptStarted(i, a) := t[p].what;
            && i < |pack.steps| && 1 <= a <= MaxTries(pack.steps[i])
            && (p + 1 < |t| ==> t[p + 1].what.AttemptResult? && t[p + 1].what.step == i && t[p + 1].what.attempt == a)
  {
    StepAt(pack, t, p);
    TriedPositive(pack, t[..p]);
    AttemptOpens(pack, After(pack, t[..p]), t[p].what);
    if p + 1 < |t| {
      StepAt(pack, t, p + 1);
      TryingThen(pack, t[p].what.step, t[p].what.attempt, t[p + 1].what);
    }
  }

  lemma {:induction false} AttemptOpens(pack: Pack, ph: Phase, what: What)
    requires what.AttemptStarted? && !Next(pack, ph, what).Broken? && (ph.Tried? ==> ph.attempt >= 1)
    ensures Next(pack, ph, what) == Trying(what.step, what.attempt)
    ensures what.step < |pack.steps| && 1 <= what.attempt <= MaxTries(pack.steps[what.step])
  {}

  lemma {:induction false} TryingThen(pack: Pack, i: nat, a: nat, what: What)
    requires !Next(pack, Trying(i, a), what).Broken?
    ensures what.AttemptResult? && what.step == i && what.attempt == a
  {}

  /** A further attempt comes right after the failure of the one numbered before it. */
  lemma {:induction false} RetryFollowsFailure(pack: Pack, t: seq<Event>, p: nat)
    requires After(pack, t) != Broken && p < |t| && t[p].what.AttemptStarted? && t[p].what.attempt > 1
    ensures var AttemptStarted(i, a) := t[p].what;
            && p >= 1 && t[p - 1].what.AttemptResult? && t[p - 1].what.step == i
            && t[p - 1].what.attempt == a - 1 && t[p - 1].what.status != Succeeded
  {
    StepAt(pack, t, p);
    TriedSays(pack, t[..p]);
  }

  lemma {:induction false} TriedSays(pack: Pack, t: seq<Event>)
    ensures var ph := After(pack, t);
            ph.Tried? ==> t != [] && t[|t| - 1].what == AttemptResult(ph.step, ph.attempt, ph.status)
  {}

  // ---- compensation ----

  predicate Sane(pack: Pack, ph: Phase) {
    match ph
    case Stopped(at, _, below, outcome) => below <= at < |pack.steps| && outcome != ExecSucceeded
    case Undoing(at, step, outcome) => step < at < |pack.steps| && outcome != ExecSucceeded
    case Gated(i, judged, _, _) => i < |pack.steps| && (judged ==> pack.steps[i].mutating)
    case Asked(gate, _, _) => gate.Gated? && gate.step < |pack.steps| && pack.steps[gate.step].mutating
    case Refused(i) => i < |pack.steps|
    case Trying(i, _) => i < |pack.steps|
    case Tried(i, _, _) => i < |pack.steps|
    case Between(n) => n <= |pack.steps|
    case _ => true
  }

  lemma {:induction false} AlwaysSane(pack: Pack, t: seq<Event>)
    ensures Sane(pack, After(pack, t))
  {
    if t != [] { AlwaysSane(pack, t[..|t| - 1]); }
  }

  /** Step `j` is one of the steps below `done` with a hook, from `undone` on. */
  predicate Undone(pack: Pack, done: nat, undone: nat, j: nat) {
    undone <= j < done && j < |pack.steps| && pack.steps[j].hook
  }

  /** Exactly the steps below `done` have succeeded; of these, exactly the ones with a hook from `undone` on are being,
      or have been, undone. */
  ghost predicate Tally(pack: Pack, t: seq<Event>, done: nat, undone: nat) {
    && (forall j: nat :: SawSuccess(t, j) <==> j < done)
    && (forall j: nat :: Saw(t, RollbackStarted(j)) <==> Undone(pack, done, undone, j))
  }

  /** How an event moves the two marks. */
  lemma {:induction false} MarksMove(pack: Pack, ph: Phase, what: What, j: nat)
    requires Sane(pack, ph) && !Next(pack, ph, what).Broken? && !Next(pack, ph, what).Closed?
    ensures var ph' := Next(pack, ph, what);
            && (j < Done(ph') <==> j < Done(ph) || Succeeds(what, j))
            && (Undone(pack, Done(ph'), UndoneFrom(ph'), j) <==> Undone(pack, Done(ph), UndoneFrom(ph), j) || what == RollbackStarted(j))
  {}

  lemma {:induction false} TallyStep(pack: Pack, t: seq<Event>, e: Event, ph: Phase)
    requires Sane(pack, ph) && Tally(pack, t, Done(ph), UndoneFrom(ph))
    requires !Next(pack, ph, e.what).Broken? && !Next(pack, ph, e.what).Closed?
    ensures var ph' := Next(pack, ph, e.what); Tally(pack, t + [e], Done(ph'), UndoneFrom(ph'))
  {
    var ph' := Next(pack, ph, e.what);
    forall j: nat
      ensures SawSuccess(t + [e], j) <==> j < Done(ph')
      ensures Saw(t + [e], RollbackStarted(j)) <==> Undone(pack, Done(ph'), UndoneFrom(ph'), j)
    {
      SawSuccessMore(t, e, j);
      SawMore(t, e, RollbackStarted(j));
      MarksMove(pack, ph, e.what, j);
    }
  }

  lemma {:induction false} TallyHolds(pack: Pack, t: seq<Event>)
    requires !After(pack, t).Broken? && !After(pack, t).Closed?
    ensures var ph := After(pack, t); Tally(pack, t, Done(ph), UndoneFrom(ph))
    decreases |t|
  {
    if t != [] {
      var before, e := t[..|t| - 1], t[|t| - 1];
      TallyHolds(pack, before);
      AlwaysSane(pack, before);
      TallyStep(pack, before, e, After(pack, before));
      assert t == before + [e];
    }
  }

  lemma {:induction false} TallySame(pack: Pack, t: seq<Event>, e: Event, done: nat, undone: nat, mark: nat)
    requires Tally(pack, t, done, undone) && e.what.ExecutionFinished?
    requires forall j: nat :: Undone(pack, done, undone, j) <==> Undone(pack, done, mark, j)
    ensures Tally(pack, t + [e], done, mark)
  {
    forall j: nat
      ensures SawSuccess(t + [e], j) <==> j < done
      ensures Saw(t + [e], RollbackStarted(j)) <==> Undone(pack, done, mark, j)
    {
      SawSuccessMore(t, e, j);
      SawMore(t, e, RollbackStarted(j));
    }
  }

  /** A finished execution has undone exactly the steps that succeeded and have a hook, unless every step succeeded: then
      it has undone none. */
  lemma {:induction false} Compensates(pack: Pack, t: seq<Event>)
    requires After(pack, t).Closed?
    ensures After(pack, t).outcome == ExecSucceeded ==> Tally(pack, t, |pack.steps|, |pack.steps|)
    ensures After(pack, t).outcome != ExecSucceeded ==> exists k: nat :: k < |pack.steps| && Tally(pack, t, k, 0)
  {
    var before, e := t[..|t| - 1], t[|t| - 1];
    var ph := After(pack, before);
    ClosedFrom(pack, ph, e.what);
    TallyHolds(pack, before);
    AlwaysSane(pack, before);
    assert t == before + [e];
    TallySame(pack, before, e, Done(ph), UndoneFrom(ph), if ph.Stopped? then 0 else UndoneFrom(ph));
  }

  /** Steps are undone in the reverse order of their success, each at most once, and after that nothing acts again. */
  lemma {:induction false} UndoneInReverse(pack: Pack, t: seq<Event>, p: nat, q: nat)
    requires After(pack, t) != Broken && p < q < |t| && t[p].what.RollbackStarted?
    ensures !t[q].what.AttemptStarted?
    ensures t[q].what.RollbackStarted? ==> t[q].what.step < t[p].what.step
  {
    StepAt(pack, t, q);
    var ph := After(pack, t[..q]);
    AlwaysSane(pack, t[..q]);
    assert t[..q][p].what == RollbackStarted(t[p].what.step) && Saw(t[..q], RollbackStarted(t[p].what.step));
    if !ph.Closed? { TallyHolds(pack, t[..q]); }
  }

  /** A rollback is answered by the very next event. */
  lemma {:induction false} RollbackAnswered(pack: Pack, t: seq<Event>, p: nat)
    requires After(pack, t) != Broken && p + 1 < |t| && t[p].what.RollbackStarted?
    ensures t[p + 1].what.RollbackFinished? && t[p + 1].what.step == t[p].what.step
  {
    StepAt(pack, t, p);
    StepAt(pack, t, p + 1);
  }

  // ---- beginnings and ends ----

  lemma {:induction false} FreshIsEmpty(pack: Pack, t: seq<Event>)
    requires After(pack, t).Fresh?
    ensures t == []
  {}

  /** execution.started comes first and only there. */
  lemma {:induction false} StartsFirst(pack: Pack, t: seq<Event>, p: nat)
    requires After(pack, t) != Broken && p < |t|
    ensures t[p].what.ExecutionStarted? ==> p == 0
    ensures t[0].what.ExecutionStarted?
  {
    StepAt(pack, t, p);
    if t[p].what.ExecutionStarted? { FreshIsEmpty(pack, t[..p]); }
    FirstEvent(pack, t);
  }

  lemma {:induction false} FirstEvent(pack: Pack, t: seq<Event>)
    requires After(pack, t) != Broken && t != []
    ensures t[0].what.ExecutionStarted?
  {
    StepAt(pack, t, 0);
    assert t[..0] == [];
  }

  /** execution.finished comes last and only there. */
  lemma {:induction false} FinishesLast(pack: Pack, t: seq<Event>, p: nat)
    requires After(pack, t) != Broken && p < |t| && t[p].what.ExecutionFinished?
    ensures p == |t| - 1
  {
    StepAt(pack, t, p);
    if p + 1 < |t| { StepAt(pack, t, p + 1); }
  }

  lemma {:induction false} FinishedByLast(pack: Pack, t: seq<Event>)
    requires After(pack, t).Closed?
    ensures t != [] && t[|t| - 1].what == ExecutionFinished(After(pack, t).outcome)
  {}

  /** How many steps have been started, and how many of them are closed. */
  function Opened(ph: Phase): nat {
    match ph
    case Fresh => 0
    case Between(n) => n
    case Asked(gate, _, _) => Opened(gate)
    case Closed(_) => 0
    case Broken => 0
    case _ => Done(ph) + 1
  }

  function ClosedBelow(ph: Phase): nat {
    if ph.Stopped? || ph.Undoing? then ph.at + 1 else Done(ph)
  }

  /** The event closes the step: finished, or blocked. */
  predicate Closes(what: What, j: nat) {
    (what.StepFinished? || what.StepBlocked?) && what.step == j
  }

  ghost predicate SawClose(t: seq<Event>, j: nat) {
    exists p :: 0 <= p < |t| && Closes(t[p].what, j)
  }

  lemma {:induction false} SawCloseMore(t: seq<Event>, e: Event, j: nat)
    ensures SawClose(t + [e], j) <==> SawClose(t, j) || Closes(e.what, j)
  {
    var t' := t + [e];
    if SawClose(t', j) {
      var p :| 0 <= p < |t'| && Closes(t'[p].what, j);
      if p < |t| { assert t[p] == t'[p]; }
    }
    if SawClose(t, j) {
      var p :| 0 <= p < |t| && Closes(t[p].what, j);
      assert t'[p] == t[p];
    }
    assert t'[|t|] == e;
  }

  lemma {:induction false} StepMarksMove(pack: Pack, ph: Phase, what: What, j: nat)
    requires Sane(pack, ph) && !Next(pack, ph, what).Broken? && !Next(pack, ph, what).Closed?
    ensures var ph' := Next(pack, ph, what);
            && (j < Opened(ph') <==> j < Opened(ph) || what == StepStarted(j))
            && (j < ClosedBelow(ph') <==> j < ClosedBelow(ph) || Closes(what, j))
  {}

  lemma {:induction false} StepTally(pack: Pack, t: seq<Event>, j: nat)
    requires !After(pack, t).Broken? && !After(pack, t).Closed?
    ensures Saw(t, StepStarted(j)) <==> j < Opened(After(pack, t))
    ensures SawClose(t, j) <==> j < ClosedBelow(After(pack, t))
    decreases |t|
  {
    if t != [] {
      var before, e := t[..|t| - 1], t[|t| - 1];
      StepTally(pack, before, j);
      AlwaysSane(pack, before);
      StepMarksMove(pack, After(pack, before), e.what, j);
      SawMore(before, e, StepStarted(j));
      SawCloseMore(before, e, j);
      assert t == before + [e];
    }
  }

  /** Steps are started one after the other, each at most once, and closed the same way. */
  lemma {:induction false} EachStepOnce(pack: Pack, t: seq<Event>, p: nat, q: nat)
    requires After(pack, t) != Broken && p < q < |t|
    ensures t[p].what.StepStarted? && t[q].what.StepStarted? ==> t[p].what.step < t[q].what.step
    ensures forall i, j :: Closes(t[p].what, i) && Closes(t[q].what, j) ==> i < j
  {
    StepAt(pack, t, q);
    var ph := After(pack, t[..q]);
    assert t[..q][p] == t[p];
    if t[p].what.StepStarted? && t[q].what.StepStarted? {
      assert Saw(t[..q], StepStarted(t[p].what.step));
      StepTally(pack, t[..q], t[p].what.step);
    }
    if (t[p].what.StepFinished? || t[p].what.StepBlocked?) && (t[q].what.StepFinished? || t[q].what.StepBlocked?) {
      assert SawClose(t[..q], t[p].what.step) by { assert Closes(t[..q][p].what, t[p].what.step); }
      StepTally(pack, t[..q], t[p].what.step);
    }
  }

  /** And in a finished timeline every step that was started is closed. */
  lemma {:induction false} StartedIsClosed(pack: Pack, t: seq<Event>, j: nat)
    requires After(pack, t).Closed?
    ensures Saw(t, StepStarted(j)) <==> SawClose(t, j)
  {
    var before, e := t[..|t| - 1], t[|t| - 1];
    ClosedFrom(pack, After(pack, before), e.what);
    StepTally(pack, before, j);
    SawMore(before, e, StepStarted(j));
    SawCloseMore(before, e, j);
    assert t == before + [e];
  }

  /** An execution only finishes between steps, or once it has stopped. */
  lemma {:induction false} ClosedFrom(pack: Pack, ph: Phase, what: What)
    requires Next(pack, ph, what).Closed?
    ensures what.ExecutionFinished? && (ph.Between? || ph.Stopped?) && Opened(ph) == ClosedBelow(ph)
  {}

  // ---- the number of attempts ----

  /** The attempts made so far of a step that is not behind the execution yet. */
  function AttemptsAt(ph: Phase, j: nat): nat {
    if (ph.Trying? || ph.Tried?) && ph.step == j then ph.attempt else 0
  }

  lemma {:induction false} AttemptsMove(pack: Pack, ph: Phase, what: What, j: nat, a: nat)
    requires Sane(pack, ph) && !Next(pack, ph, what).Broken?
    requires var ph' := Next(pack, ph, what); !ph'.Closed? && !ph'.Stopped? && !ph'.Undoing? && j >= Done(ph')
    ensures var ph' := Next(pack, ph, what);
            && !ph.Closed? && !ph.Stopped? && !ph.Undoing? && !ph.Broken? && j >= Done(ph)
            && (1 <= a <= AttemptsAt(ph', j) <==> 1 <= a <= AttemptsAt(ph, j) || what == AttemptStarted(j, a))
  {}

  lemma {:induction false} AttemptTally(pack: Pack, t: seq<Event>, j: nat, a: nat)
    requires var ph := After(pack, t); !ph.Broken? && !ph.Closed? && !ph.Stopped? && !ph.Undoing? && j >= Done(ph)
    ensures Saw(t, AttemptStarted(j, a)) <==> 1 <= a <= AttemptsAt(After(pack, t), j)
    decreases |t|
  {
    if t != [] {
      var before, e := t[..|t| - 1], t[|t| - 1];
      AlwaysSane(pack, before);
      AttemptsMove(pack, After(pack, before), e.what, j, a);
      AttemptTally(pack, before, j, a);
      SawMore(before, e, AttemptStarted(j, a));
      assert t == before + [e];
    }
  }

  /** How many attempts of a step the timeline shows. */
  function Attempts(t: seq<Event>, j: nat): nat {
    if t == [] then 0
    else Attempts(t[..|t| - 1], j) + if t[|t| - 1].what.AttemptStarted? && t[|t| - 1].what.step == j then 1 else 0
  }

  lemma {:induction false} AttemptCounts(pack: Pack, ph: Phase, what: What, j: nat)
    requires Sane(pack, ph) && !Next(pack, ph, what).Broken?
    requires var ph' := Next(pack, ph, what); !ph'.Closed? && !ph'.Stopped? && !ph'.Undoing? && j >= Done(ph')
    ensures var ph' := Next(pack, ph, what);
            && !ph.Closed? && !ph.Stopped? && !ph.Undoing? && !ph.Broken? && j >= Done(ph)
            && AttemptsAt(ph', j) == AttemptsAt(ph, j) + if what.AttemptStarted? && what.step == j then 1 else 0
  {}

  lemma {:induction false} AttemptsAreCounted(pack: Pack, t: seq<Event>, j: nat)
    requires var ph := After(pack, t); !ph.Broken? && !ph.Closed? && !ph.Stopped? && !ph.Undoing? && j >= Done(ph)
    ensures Attempts(t, j) == AttemptsAt(After(pack, t), j)
    decreases |t|
  {
    if t != [] {
      var before, e := t[..|t| - 1], t[|t| - 1];
      AlwaysSane(pack, before);
      AttemptCounts(pack, After(pack, before), e.what, j);
      AttemptsAreCounted(pack, before, j);
    }
  }

  /** The number of attempts that a finished step reports is the number of attempts on the timeline, and they are numbered
      from 1 up to it. */
  lemma {:induction false} AttemptsReported(pack: Pack, t: seq<Event>, p: nat, a: nat)
    requires After(pack, t) != Broken && p < |t| && t[p].what.StepFinished?
    ensures Attempts(t[..p], t[p].what.step) == t[p].what.attempts
    ensures Saw(t[..p], AttemptStarted(t[p].what.step, a)) <==> 1 <= a <= t[p].what.attempts
  {
    StepAt(pack, t, p);
    AttemptsAreCounted(pack, t[..p], t[p].what.step);
    AttemptTally(pack, t[..p], t[p].what.step, a);
  }

  // ---- the timeline is determined ----

  /** What the event reports is what the world answered. */
  predicate Truthful(pack: Pack, w: World, what: What) {
    match what
    case PolicyEvaluated(i, outcome) => outcome == Outcome(w.policy(i))
    case ApprovalChecked(i, scope, ok) => ok == Granted(pack, w, i, scope)
    case AttemptResult(i, a, status) => status == StatusOf(w.run(i, a, false))
    case RollbackFinished(i, status) => status == UndoStatus(w, i)
    case _ => true
  }

  /** The decision on a required approval. */
  predicate Granted(pack: Pack, w: World, i: nat, scope: Scope) {
    if scope == Workflow then Cleared(pack.approval, w.workflow)
    else i < |pack.steps| && Cleared(pack.steps[i].approval, w.decision(i))
  }

  /** In every phase at most one event is possible. */
  lemma {:induction false} OnlyOneNext(pack: Pack, w: World, ph: Phase, x: What, y: What)
    requires !Next(pack, ph, x).Broken? && !Next(pack, ph, y).Broken? && Truthful(pack, w, x) && Truthful(pack, w, y)
    requires Sane(pack, ph)
    ensures x == y
  {
    match x
    case RollbackStarted(i) => if y.RollbackStarted? { SameHook(pack, ph.below, i, y.step); }
    case ExecutionStarted =>
    case StepStarted(_) =>
    case PolicyEvaluated(_, _) =>
    case ApprovalChecked(_, _, _) =>
    case ApprovalDecided(_, _, _) =>
    case AttemptStarted(_, _) =>
    case AttemptResult(_, _, _) =>
    case StepFinished(_, _, _) =>
    case StepBlocked(_) =>
    case StepSkipped(_) =>
    case RollbackFinished(_, _) =>
    case ExecutionFinished(_) =>
  }

  lemma {:induction false} SameHook(pack: Pack, below: nat, i: nat, j: nat)
    requires i < below && j < below && i < |pack.steps| && j < |pack.steps| && pack.steps[i].hook && pack.steps[j].hook
    requires NoHook(pack, i + 1, below) && NoHook(pack, j + 1, below)
    ensures i == j
  {}

  ghost predicate AllTruthful(pack: Pack, w: World, t: seq<Event>) {
    forall p {:trigger Truthful(pack, w, t[p].what)} :: 0 <= p < |t| ==> Truthful(pack, w, t[p].what)
  }

  lemma {:induction false} TruthfulMore(pack: Pack, w: World, t: seq<Event>, e: Event)
    requires AllTruthful(pack, w, t) && Truthful(pack, w, e.what)
    ensures AllTruthful(pack, w, t + [e])
  {
    forall p | 0 <= p <= |t| ensures Truthful(pack, w, (t + [e])[p].what) {
      if p < |t| { assert Truthful(pack, w, t[p].what); }
    }
  }

  /** The two timelines agree on their first `n` events, and stand at the same phase there. */
  ghost predicate Alike(pack: Pack, t: seq<Event>, t': seq<Event>, n: nat) {
    && n <= |t| && n <= |t'| && After(pack, t[..n]) == After(pack, t'[..n])
    && forall p :: 0 <= p < n ==> t[p].what == t'[p].what
  }

  lemma {:induction false} AlikeMore(pack: Pack, w: World, t: seq<Event>, t': seq<Event>, n: nat)
    requires After(pack, t) != Broken && After(pack, t') != Broken && n < |t| && n < |t'| && Alike(pack, t, t', n)
    requires Truthful(pack, w, t[n].what) && Truthful(pack, w, t'[n].what)
    ensures Alike(pack, t, t', n + 1)
  {
    StepAt(pack, t, n);
    StepAt(pack, t', n);
    AlwaysSane(pack, t[..n]);
    OnlyOneNext(pack, w, After(pack, t[..n]), t[n].what, t'[n].what);
  }

  lemma {:induction false} SamePrefix(pack: Pack, w: World, t: seq<Event>, t': seq<Event>, n: nat)
    requires After(pack, t) != Broken && After(pack, t') != Broken && AllTruthful(pack, w, t) && AllTruthful(pack, w, t')
    requires n <= |t| && n <= |t'|
    ensures Alike(pack, t, t', n)
  {
    if n > 0 {
      SamePrefix(pack, w, t, t', n - 1);
      assert Truthful(pack, w, t[n - 1].what) && Truthful(pack, w, t'[n - 1].what);
      AlikeMore(pack, w, t, t', n - 1);
    } else {
      assert t[..0] == t'[..0];
    }
  }

  lemma {:induction false} ClosedIsLast(pack: Pack, t: seq<Event>, n: nat)
    requires After(pack, t) != Broken && n <= |t| && After(pack, t[..n]).Closed?
    ensures n == |t|
  {
    if n < |t| { StepAt(pack, t, n); }
  }

  /** For a given pack and world there is only one timeline: two finished and truthful ones report the same events. */
  lemma {:induction false} TimelineDetermined(pack: Pack, w: World, t: seq<Event>, t': seq<Event>)
    requires After(pack, t).Closed? && After(pack, t').Closed? && AllTruthful(pack, w, t) && AllTruthful(pack, w, t')
    ensures |t| == |t'| && forall p :: 0 <= p < |t| ==> t[p].what == t'[p].what
  {
    var n := if |t| <= |t'| then |t| else |t'|;
    SamePrefix(pack, w, t, t', n);
    assert t[..|t|] == t && t'[..|t'|] == t';
    ClosedIsLast(pack, t, n);
    ClosedIsLast(pack, t', n);
  }
}
