/** The worker scheduler of async jobs: bounded claims, alone and interleaved with everything else that changes jobs. */
module AsyncScheduler {
  import opened Text
  import opened AsyncJobs
  import Ranking

  datatype Config = Config(maxInFlight: int, maxPerProbe: int, batch: int)

  const DEFAULT_IN_FLIGHT := 8
  const DEFAULT_BATCH := 64
  const MAX_LIST := 500

  /** AsyncWorkerConfig.normalized */
  function Normalize(c: Config): (n: Config)
    ensures n.maxInFlight >= 1 && n.maxPerProbe >= 0 && 1 <= n.batch <= MAX_LIST
    ensures n.batch >= n.maxInFlight || n.batch == MAX_LIST
    ensures (c.maxInFlight > 0 ==> n.maxInFlight == c.maxInFlight) && (c.maxPerProbe >= 0 ==> n.maxPerProbe == c.maxPerProbe)
    ensures n.maxInFlight <= c.batch <= MAX_LIST ==> n.batch == c.batch
    ensures c == Config(0, 0, 0) ==> n == Config(8, 0, 64)
  {
    var inFlight := if c.maxInFlight <= 0 then DEFAULT_IN_FLIGHT else c.maxInFlight;
    var wanted := if c.batch <= 0 then DEFAULT_BATCH else c.batch;
    var batch := if wanted < inFlight then inFlight else wanted;
    Config(inFlight, if c.maxPerProbe < 0 then 0 else c.maxPerProbe, if batch > MAX_LIST then MAX_LIST else batch)
  }

  // ---- counts ----

  type Counts = map<string, nat>

  function CountOf(m: Counts, p: string): nat {
    if p in m then m[p] else 0
  }

  function RunningSet(jobs: Jobs): set<string> {
    set id | id in jobs && jobs[id].state == Running
  }

  function RunningAt(jobs: Jobs, p: string): set<string> {
    set id | id in jobs && jobs[id].state == Running && jobs[id].probe == p
  }

  function QueuedSet(jobs: Jobs): set<string> {
    set id | id in jobs && jobs[id].state == Queued
  }

  /** SELECT probe_id, COUNT(*) ... WHERE state = running GROUP BY probe_id */
  function GroupCounts(jobs: Jobs): Counts {
    map p | p in (set id | id in RunningSet(jobs) :: jobs[id].probe) :: |RunningAt(jobs, p)|
  }

  lemma {:induction false} GroupCountsExact(jobs: Jobs, p: string)
    ensures CountOf(GroupCounts(jobs), p) == |RunningAt(jobs, p)|
  {
    forall id | id in RunningAt(jobs, p) ensures p in GroupCounts(jobs) { assert id in RunningSet(jobs); }
    if p !in GroupCounts(jobs) { assert RunningAt(jobs, p) == {}; }
  }

  // ---- one claim ----

  datatype Candidate = Candidate(id: string, probe: string)

  /** The jobs, the scheduler's two counters, and the ids it has handed to the dispatcher so far. */
  datatype Books = Books(jobs: Jobs, total: nat, byProbe: Counts, log: seq<string>)

  predicate AtLimit(cfg: Config, total: nat, byProbe: Counts, probe: string) {
    total >= cfg.maxInFlight || (cfg.maxPerProbe > 0 && CountOf(byProbe, probe) >= cfg.maxPerProbe)
  }

  /** claimQueuedJob, followed by the dispatch of what it claimed. */
  function Claim(cfg: Config, b: Books, c: Candidate, now: int): (r: (Books, bool))
  {
    if AtLimit(cfg, b.total, b.byProbe, c.probe) then (b, false)
    else
      match Transition(b.jobs, c.id, Running, now, None)
      case Err(_) => (b, false)
      case Ok(jobs) =>
        var p := jobs[c.id].probe;
        (Books(jobs, b.total + 1, b.byProbe[p := CountOf(b.byProbe, p) + 1], b.log + [c.id]), true)
  }

  /** A claim takes a job that is queued, waiting for approval or running already, and nothing else. */
  lemma {:induction false} ClaimTakes(cfg: Config, b: Books, c: Candidate, now: int)
    ensures Claim(cfg, b, c, now).1 <==>
            !AtLimit(cfg, b.total, b.byProbe, c.probe) && c.id in b.jobs && b.jobs[c.id].state in {Queued, WaitingApproval, Running}
  {
    TransitionMovesOn(b.jobs, c.id, Running, now, None);
  }

  // ---- what the scheduler has in flight ----

  /** Dispatched jobs that still run. */
  ghost function InFlight(jobs: Jobs, log: seq<string>): set<string> {
    set id | id in log && id in jobs && jobs[id].state == Running
  }

  ghost function InFlightAt(jobs: Jobs, log: seq<string>, p: string): set<string> {
    set id | id in log && id in jobs && jobs[id].state == Running && jobs[id].probe == p
  }

  /** Dispatched jobs have left the queue for good, and none was dispatched twice. */
  ghost predicate LogGood(jobs: Jobs, log: seq<string>) {
    && (forall i :: 0 <= i < |log| ==> log[i] in jobs && Rank(jobs[log[i]].state) >= 2)
    && (forall i, j :: 0 <= i < j < |log| ==> log[i] != log[j])
  }

  ghost predicate Bounded(cfg: Config, jobs: Jobs, log: seq<string>) {
    && |InFlight(jobs, log)| <= cfg.maxInFlight
    && (cfg.maxPerProbe > 0 ==> forall p :: |InFlightAt(jobs, log, p)| <= cfg.maxPerProbe)
  }

  /** The counters never fall behind what is in flight. */
  ghost predicate Covered(jobs: Jobs, log: seq<string>, total: nat, byProbe: Counts) {
    && |InFlight(jobs, log)| <= total
    && forall p :: |InFlightAt(jobs, log, p)| <= CountOf(byProbe, p)
  }

  /** Whatever moves jobs on, nothing comes into flight behind the scheduler's back. */
  lemma {:induction false} LaterShrinks(jobs: Jobs, jobs': Jobs, log: seq<string>)
    requires Later(jobs, jobs') && LogGood(jobs, log)
    ensures LogGood(jobs', log)
    ensures |InFlight(jobs', log)| <= |InFlight(jobs, log)|
    ensures forall p :: |InFlightAt(jobs', log, p)| <= |InFlightAt(jobs, log, p)|
  {
    assert InFlight(jobs', log) <= InFlight(jobs, log);
    Ranking.SubsetSize(InFlight(jobs', log), InFlight(jobs, log));
    forall p ensures |InFlightAt(jobs', log, p)| <= |InFlightAt(jobs, log, p)| {
      assert InFlightAt(jobs', log, p) <= InFlightAt(jobs, log, p);
      Ranking.SubsetSize(InFlightAt(jobs', log, p), InFlightAt(jobs, log, p));
    }
  }

  lemma {:induction false} SnapshotCovers(jobs: Jobs, log: seq<string>)
    ensures Covered(jobs, log, |RunningSet(jobs)|, GroupCounts(jobs))
  {
    assert InFlight(jobs, log) <= RunningSet(jobs);
    Ranking.SubsetSize(InFlight(jobs, log), RunningSet(jobs));
    forall p ensures |InFlightAt(jobs, log, p)| <= CountOf(GroupCounts(jobs), p) {
      GroupCountsExact(jobs, p);
      assert InFlightAt(jobs, log, p) <= RunningAt(jobs, p);
      Ranking.SubsetSize(InFlightAt(jobs, log, p), RunningAt(jobs, p));
    }
  }

  /** What a successful claim adds. */
  lemma {:induction false} ClaimAdds(jobs: Jobs, log: seq<string>, id: string, now: int, jobs': Jobs)
    requires Transition(jobs, id, Running, now, None) == Ok(jobs') && id !in log
    ensures InFlight(jobs', log + [id]) == InFlight(jobs, log) + {id} && id !in InFlight(jobs, log)
    ensures forall p :: InFlightAt(jobs', log + [id], p) == InFlightAt(jobs, log, p) + if p == jobs[id].probe then {id} else {}
    ensures LogGood(jobs, log) ==> LogGood(jobs', log + [id])
  {
    TransitionMovesOn(jobs, id, Running, now, None);
    assert forall other :: other in jobs && other != id ==> jobs'[other] == jobs[other];
  }

  /** A claim of a job not dispatched before keeps everything, and leaves the limits respected. */
  lemma {:induction false} ClaimKeeps(cfg: Config, b: Books, c: Candidate, now: int)
    requires LogGood(b.jobs, b.log) && Bounded(cfg, b.jobs, b.log) && Covered(b.jobs, b.log, b.total, b.byProbe)
    requires c.id !in b.log && (c.id in b.jobs ==> b.jobs[c.id].probe == c.probe)
    ensures var r := Claim(cfg, b, c, now).0;
            && LogGood(r.jobs, r.log) && Bounded(cfg, r.jobs, r.log) && Covered(r.jobs, r.log, r.total, r.byProbe)
  {
    var (r, ok) := Claim(cfg, b, c, now);
    if ok {
      ClaimAdds(b.jobs, b.log, c.id, now, r.jobs);
      forall p
        ensures |InFlightAt(r.jobs, r.log, p)| <= CountOf(r.byProbe, p)
        ensures cfg.maxPerProbe > 0 ==> |InFlightAt(r.jobs, r.log, p)| <= cfg.maxPerProbe
      {
        assert |InFlightAt(b.jobs, b.log, p)| <= CountOf(b.byProbe, p);
        assert cfg.maxPerProbe > 0 ==> |InFlightAt(b.jobs, b.log, p)| <= cfg.maxPerProbe;
        ClaimKeepsProbe(cfg, b, c, now, p);
      }
    }
  }

  lemma {:induction false} ClaimKeepsProbe(cfg: Config, b: Books, c: Candidate, now: int, p: string)
    requires c.id !in b.log && (c.id in b.jobs ==> b.jobs[c.id].probe == c.probe) && Claim(cfg, b, c, now).1
    requires |InFlightAt(b.jobs, b.log, p)| <= CountOf(b.byProbe, p)
    requires cfg.maxPerProbe > 0 ==> |InFlightAt(b.jobs, b.log, p)| <= cfg.maxPerProbe
    ensures var r := Claim(cfg, b, c, now).0;
            && |InFlightAt(r.jobs, r.log, p)| <= CountOf(r.byProbe, p)
            && (cfg.maxPerProbe > 0 ==> |InFlightAt(r.jobs, r.log, p)| <= cfg.maxPerProbe)
  {
    var r := Claim(cfg, b, c, now).0;
    TransitionMovesOn(b.jobs, c.id, Running, now, None);
    ClaimAdds(b.jobs, b.log, c.id, now, r.jobs);
    assert InFlightAt(r.jobs, r.log, p) == InFlightAt(b.jobs, b.log, p) + if p == c.probe then {c.id} else {};
  }

  lemma {:induction false} ClaimMovesOn(cfg: Config, b: Books, c: Candidate, now: int)
    ensures var r := Claim(cfg, b, c, now).0;
            && Later(b.jobs, r.jobs) && r.jobs.Keys == b.jobs.Keys && QueuedSet(r.jobs) <= QueuedSet(b.jobs)
            && (r.log == b.log || r.log == b.log + [c.id]) && (AllGood(b.jobs) ==> AllGood(r.jobs))
  {
    TransitionMovesOn(b.jobs, c.id, Running, now, None);
  }

  // ---- interleavings ----

  /** Where the holder of schedMu stands: drainQueued counts, then lists, then claims one by one; DispatchNow looks at its
      job, then counts, then claims it. */
  datatype Phase =
    | Idle
    | Looked(c: Candidate)
    | Counted(total: nat, byProbe: Counts)
    | Working(total: nat, byProbe: Counts, left: nat, todo: seq<Candidate>)

  datatype World = World(jobs: Jobs, log: seq<string>, phase: Phase, admitting: Option<(string, string, int)>)

  /** `maxDepth` 0 is no limit on the queue. */
  datatype Limits = Limits(cfg: Config, maxDepth: nat)

  datatype Step =
    | External(op: Op)
    | CheckDepth(id: string, probe: string, created: int)
    | Insert
    | Look(id: string)
    | Count
    | List(todo: seq<Candidate>)
    | ClaimNext(now: int)

  ghost predicate Distinct(todo: seq<Candidate>) {
    forall i, j :: 0 <= i < j < |todo| ==> todo[i].id != todo[j].id
  }

  ghost predicate Enabled(l: Limits, w: World, step: Step) {
    match step
    case External(_) => true
    case CheckDepth(_, _, _) => w.admitting == None
    case Insert => w.admitting.Some?
    case Look(id) => w.phase.Idle? && id in w.jobs && w.jobs[id].state == Queued
    case Count => w.phase.Idle? || w.phase.Looked?
    case List(todo) =>
      && w.phase.Counted? && |todo| <= l.cfg.batch && Distinct(todo)
      && forall i :: 0 <= i < |todo| ==> todo[i].id in QueuedSet(w.jobs) && w.jobs[todo[i].id].probe == todo[i].probe
    case ClaimNext(_) => w.phase.Working?
  }

  function Apply(l: Limits, w: World, step: Step): World {
    match step
    case External(op) => w.(jobs := Do(w.jobs, op))
    case CheckDepth(id, probe, created) =>
      if l.maxDepth > 0 && |QueuedSet(w.jobs)| >= l.maxDepth then w else w.(admitting := Some((id, probe, created)))
    case Insert =>
      if w.admitting.None? then w
      else w.(jobs := Create(w.jobs, w.admitting.value.0, w.admitting.value.1, w.admitting.value.2), admitting := None)
    case Look(id) => if id in w.jobs then w.(phase := Looked(Candidate(id, w.jobs[id].probe))) else w
    case Count =>
      var total, byProbe := |RunningSet(w.jobs)|, GroupCounts(w.jobs);
      if w.phase.Looked? then w.(phase := Working(total, byProbe, 1, [w.phase.c]))
      else if total >= l.cfg.maxInFlight then w.(phase := Idle)
      else w.(phase := Counted(total, byProbe))
    case List(todo) =>
      if w.phase.Counted? && w.phase.total <= l.cfg.maxInFlight
      then w.(phase := Working(w.phase.total, w.phase.byProbe, l.cfg.maxInFlight - w.phase.total, todo)) else w
    case ClaimNext(now) =>
      if !w.phase.Working? then w
      else if w.phase.todo == [] || w.phase.left == 0 then w.(phase := Idle)
      else
        var (b, ok) := Claim(l.cfg, Books(w.jobs, w.phase.total, w.phase.byProbe, w.log), w.phase.todo[0], now);
        World(b.jobs, b.log, Working(b.total, b.byProbe, if ok then w.phase.left - 1 else w.phase.left, w.phase.todo[1..]), w.admitting)
  }

  ghost predicate CandidateGood(jobs: Jobs, log: seq<string>, c: Candidate) {
    c.id !in log && c.id in jobs && jobs[c.id].probe == c.probe
  }

  ghost predicate PhaseGood(w: World) {
    match w.phase
    case Idle => true
    case Looked(c) => CandidateGood(w.jobs, w.log, c)
    case Counted(total, byProbe) => Covered(w.jobs, w.log, total, byProbe)
    case Working(total, byProbe, _, todo) =>
      && Covered(w.jobs, w.log, total, byProbe) && Distinct(todo)
      && forall i :: 0 <= i < |todo| ==> CandidateGood(w.jobs, w.log, todo[i])
  }

  ghost predicate Inv(l: Limits, w: World) {
    && AllGood(w.jobs) && LogGood(w.jobs, w.log) && Bounded(l.cfg, w.jobs, w.log) && PhaseGood(w)
    && (l.maxDepth > 0 ==> |QueuedSet(w.jobs)| + (if w.admitting.Some? then 1 else 0) <= l.maxDepth)
  }

  /** An operation from outside: jobs move on, the queue does not grow. */
  lemma {:induction false} ExternalKeeps(l: Limits, w: World, op: Op)
    requires Inv(l, w)
    ensures Inv(l, Apply(l, w, External(op)))
  {
    var jobs' := Do(w.jobs, op);
    DoMovesOn(w.jobs, op);
    LaterShrinks(w.jobs, jobs', w.log);
    assert QueuedSet(jobs') <= QueuedSet(w.jobs);
    Ranking.SubsetSize(QueuedSet(jobs'), QueuedSet(w.jobs));
  }

  lemma {:induction false} CreateMovesOn(jobs: Jobs, id: string, probe: string, created: int)
    ensures var jobs' := Create(jobs, id, probe, created);
            && Later(jobs, jobs') && (AllGood(jobs) ==> AllGood(jobs'))
            && |QueuedSet(jobs')| <= |QueuedSet(jobs)| + 1
  {
    var jobs' := Create(jobs, id, probe, created);
    Ranking.SubsetSize(QueuedSet(jobs'), QueuedSet(jobs) + {id});
  }

  lemma {:induction false} InsertKeeps(l: Limits, w: World)
    requires Inv(l, w) && w.admitting.Some?
    ensures Inv(l, Apply(l, w, Insert))
  {
    var (id, probe, created) := w.admitting.value;
    CreateMovesOn(w.jobs, id, probe, created);
    LaterShrinks(w.jobs, Create(w.jobs, id, probe, created), w.log);
  }

  lemma {:induction false} NotLogged(jobs: Jobs, log: seq<string>, id: string)
    requires LogGood(jobs, log) && id in jobs && jobs[id].state == Queued
    ensures id !in log
  {}

  lemma {:induction false} ListKeeps(l: Limits, w: World, todo: seq<Candidate>)
    requires Inv(l, w) && Enabled(l, w, List(todo))
    ensures Inv(l, Apply(l, w, List(todo)))
  {
    forall i | 0 <= i < |todo| ensures CandidateGood(w.jobs, w.log, todo[i]) {
      NotLogged(w.jobs, w.log, todo[i].id);
    }
  }

  lemma {:induction false} ClaimNextKeeps(l: Limits, w: World, now: int)
    requires Inv(l, w) && w.phase.Working? && w.phase.todo != [] && w.phase.left > 0
    ensures Inv(l, Apply(l, w, ClaimNext(now)))
  {
    var b, c := Books(w.jobs, w.phase.total, w.phase.byProbe, w.log), w.phase.todo[0];
    assert CandidateGood(w.jobs, w.log, c);
    ClaimKeeps(l.cfg, b, c, now);
    ClaimMovesOn(l.cfg, b, c, now);
    var r := Claim(l.cfg, b, c, now).0;
    Ranking.SubsetSize(QueuedSet(r.jobs), QueuedSet(w.jobs));
    var rest := w.phase.todo[1..];
    forall i | 0 <= i < |rest| ensures CandidateGood(r.jobs, r.log, rest[i]) {
      assert rest[i] == w.phase.todo[i + 1];
    }
  }

  lemma {:induction false} StepKeeps(l: Limits, w: World, step: Step)
    requires Inv(l, w) && Enabled(l, w, step)
    ensures Inv(l, Apply(l, w, step))
  {
    match step
    case External(op) => ExternalKeeps(l, w, op);
    case CheckDepth(_, _, _) =>
    case Insert => InsertKeeps(l, w);
    case Look(id) => NotLogged(w.jobs, w.log, id);
    case Count => SnapshotCovers(w.jobs, w.log);
    case List(todo) => ListKeeps(l, w, todo);
    case ClaimNext(now) => if w.phase.todo != [] && w.phase.left > 0 { ClaimNextKeeps(l, w, now); }
  }

  ghost predicate CanRun(l: Limits, w: World, steps: seq<Step>)
    decreases |steps|
  {
    steps == [] || (Enabled(l, w, steps[0]) && CanRun(l, Apply(l, w, steps[0]), steps[1..]))
  }

  function Run(l: Limits, w: World, steps: seq<Step>): World
    decreases |steps|
  {
    if steps == [] then w else Run(l, Apply(l, w, steps[0]), steps[1..])
  }

  const START := World(map[], [], Idle, None)

  /** Over every interleaving of scheduling, direct dispatch, admission and outside transitions: no job is dispatched
      twice, no more dispatched jobs run than the limits allow, in all and on each probe, the queue stays within its
      depth, and every job keeps its times in step with its state. */
  lemma {:induction false} SchedulerIsSafe(l: Limits, w: World, steps: seq<Step>)
    requires Inv(l, w) && CanRun(l, w, steps)
    ensures Inv(l, Run(l, w, steps))
    decreases |steps|
  {
    if steps != [] {
      StepKeeps(l, w, steps[0]);
      SchedulerIsSafe(l, Apply(l, w, steps[0]), steps[1..]);
    }
  }

  /** An operation from outside that lets a job enter running. */
  predicate StartsOutside(step: Step) {
    step.External? && (step.op.ApproveOp? || (step.op.Move? && step.op.to == Running))
  }

  ghost predicate OwnStartsOnly(w: World) {
    forall id :: id in RunningSet(w.jobs) ==> id in w.log
  }

  lemma {:induction false} StepKeepsOwn(l: Limits, w: World, step: Step)
    requires OwnStartsOnly(w) && !StartsOutside(step)
    ensures OwnStartsOnly(Apply(l, w, step))
  {
    match step
    case External(op) =>
      var jobs' := Do(w.jobs, op);
      forall id | id in RunningSet(jobs') ensures id in w.log { assert id in RunningSet(w.jobs); }
    case Insert =>
      var w' := Apply(l, w, step);
      forall id | id in RunningSet(w'.jobs) ensures id in w'.log { assert id in RunningSet(w.jobs); }
    case ClaimNext(now) =>
      if w.phase.Working? && w.phase.todo != [] && w.phase.left > 0 {
        ClaimKeepsOwn(l.cfg, Books(w.jobs, w.phase.total, w.phase.byProbe, w.log), w.phase.todo[0], now);
      }
    case _ =>
  }

  lemma {:induction false} ClaimKeepsOwn(cfg: Config, b: Books, c: Candidate, now: int)
    requires forall id :: id in RunningSet(b.jobs) ==> id in b.log
    ensures var r := Claim(cfg, b, c, now).0; forall id :: id in RunningSet(r.jobs) ==> id in r.log
  {
    var r := Claim(cfg, b, c, now).0;
    forall id | id in RunningSet(r.jobs) ensures id in r.log {
      if id != c.id { assert id in RunningSet(b.jobs); }
    }
  }

  /** If nothing else lets jobs enter running, the limits bound all running jobs. */
  lemma {:induction false} AllRunningBounded(l: Limits, w: World, steps: seq<Step>)
    requires Inv(l, w) && OwnStartsOnly(w) && CanRun(l, w, steps) && forall i :: 0 <= i < |steps| ==> !StartsOutside(steps[i])
    ensures |RunningSet(Run(l, w, steps).jobs)| <= l.cfg.maxInFlight
    ensures l.cfg.maxPerProbe > 0 ==> forall p :: |RunningAt(Run(l, w, steps).jobs, p)| <= l.cfg.maxPerProbe
    decreases |steps|
  {
    if steps == [] {
      Ranking.SubsetSize(RunningSet(w.jobs), InFlight(w.jobs, w.log));
      forall p ensures |RunningAt(w.jobs, p)| <= |InFlightAt(w.jobs, w.log, p)| {
        forall id | id in RunningAt(w.jobs, p) ensures id in InFlightAt(w.jobs, w.log, p) { assert id in RunningSet(w.jobs); }
        Ranking.SubsetSize(RunningAt(w.jobs, p), InFlightAt(w.jobs, w.log, p));
      }
    } else {
      StepKeeps(l, w, steps[0]);
      StepKeepsOwn(l, w, steps[0]);
      AllRunningBounded(l, Apply(l, w, steps[0]), steps[1..]);
    }
  }

  lemma {:induction false} StartIsSafe(l: Limits)
    requires l.cfg.maxInFlight >= 0
    ensures Inv(l, START)
  {
    assert InFlight(map[], []) == {} && QueuedSet(map[]) == {};
    forall p ensures InFlightAt(map[], [], p) == {} {}
  }

  /** A job is looked at before it is claimed: put on hold for approval in between, it is started all the same. With one
      queued job, nobody approves it, and it runs. */
  lemma {:induction false} StaleClaimReachable(l: Limits, id: string, job: Job, now: int)
    requires l.cfg.maxInFlight >= 1 && job.state == Queued
    ensures var w := World(map[id := job], [], Idle, None);
            var hold := [Look(id), External(Move(id, WaitingApproval, now, None))];
            var start := [Count, ClaimNext(now)];
            var held := Run(l, w, hold);
            && CanRun(l, w, hold) && id in held.jobs && held.jobs[id].state == WaitingApproval
            && CanRun(l, held, start) && id in Run(l, held, start).jobs && Run(l, held, start).jobs[id].state == Running
  {
    var w := World(map[id := job], [], Idle, None);
    var hold := [Look(id), External(Move(id, WaitingApproval, now, None))];
    var start := [Count, ClaimNext(now)];
    TwoSteps(l, w, hold);
    var held := World(map[id := job.(state := WaitingApproval)], [], Looked(Candidate(id, job.probe)), None);
    assert Run(l, w, hold) == held;
    TwoSteps(l, held, start);
    assert RunningSet(held.jobs) == {} && GroupCounts(held.jobs) == map[];
    ClaimTakes(l.cfg, Books(held.jobs, 0, map[], []), Candidate(id, job.probe), now);
  }

  lemma {:induction false} TwoSteps(l: Limits, w: World, steps: seq<Step>)
    requires |steps| == 2
    ensures Run(l, w, steps) == Apply(l, Apply(l, w, steps[0]), steps[1])
    ensures CanRun(l, w, steps) <==> Enabled(l, w, steps[0]) && Enabled(l, Apply(l, w, steps[0]), steps[1])
  {
    var last := steps[1..];
    assert last[1..] == [] && last[0] == steps[1];
    var w2 := Apply(l, Apply(l, w, steps[0]), steps[1]);
    assert Run(l, w2, []) == w2 && CanRun(l, w2, []);
    assert Run(l, Apply(l, w, steps[0]), last) == Run(l, w2, last[1..]);
  }

  /** Admission that nothing interrupts: a new job is queued if and only if the queue has no limit or fewer jobs than it. */
  lemma {:induction false} AdmittedIff(l: Limits, w: World, id: string, probe: string, created: int)
    requires w.admitting == None && id !in w.jobs
    ensures Apply(l, Apply(l, w, CheckDepth(id, probe, created)), Insert).jobs ==
            if l.maxDepth == 0 || |QueuedSet(w.jobs)| < l.maxDepth then w.jobs[id := Job(probe, created, Queued, None, None, None)] else w.jobs
  {}

  /** DispatchNow that nothing interrupts: a queued job is started if and only if fewer jobs run than may, in all and, where
      that is limited, on its probe. */
  lemma {:induction false} DispatchNowIff(l: Limits, w: World, id: string, now: int)
    requires w.phase.Idle? && id in w.jobs && w.jobs[id].state == Queued
    ensures var w' := Apply(l, Apply(l, Apply(l, w, Look(id)), Count), ClaimNext(now));
            var probe := w.jobs[id].probe;
            var room := |RunningSet(w.jobs)| < l.cfg.maxInFlight && (l.cfg.maxPerProbe <= 0 || |RunningAt(w.jobs, probe)| < l.cfg.maxPerProbe);
            && (if room then id in w'.jobs && w'.jobs[id].state == Running && w'.jobs[id].started == Some(now) else w'.jobs == w.jobs)
            && w'.log == if room then w.log + [id] else w.log
  {
    var c := Candidate(id, w.jobs[id].probe);
    GroupCountsExact(w.jobs, c.probe);
    var counted := Apply(l, Apply(l, w, Look(id)), Count);
    assert counted.phase == Working(|RunningSet(w.jobs)|, GroupCounts(w.jobs), 1, [c]);
    ClaimTakes(l.cfg, Books(w.jobs, |RunningSet(w.jobs)|, GroupCounts(w.jobs), w.log), c, now);
  }

  // ---- a drain that nothing interrupts ----

  /** The loop of drainQueued over its listing. */
  function ClaimAll(cfg: Config, b: Books, todo: seq<Candidate>, left: nat, now: int): Books
    decreases |todo|
  {
    if todo == [] || left == 0 then b
    else
      var (b', ok) := Claim(cfg, b, todo[0], now);
      ClaimAll(cfg, b', todo[1..], if ok then left - 1 else left, now)
  }

  ghost predicate Exact(b: Books) {
    b.total == |RunningSet(b.jobs)| && forall p :: CountOf(b.byProbe, p) == |RunningAt(b.jobs, p)|
  }

  ghost predicate AllQueued(jobs: Jobs, todo: seq<Candidate>) {
    forall i :: 0 <= i < |todo| ==> todo[i].id in jobs && jobs[todo[i].id].state == Queued && jobs[todo[i].id].probe == todo[i].probe
  }

  lemma {:induction false} OneMoreRuns(jobs: Jobs, id: string, j: Job)
    requires id in jobs && jobs[id].state != Running && j.state == Running && j.probe == jobs[id].probe
    ensures |RunningSet(jobs[id := j])| == |RunningSet(jobs)| + 1
    ensures forall p :: |RunningAt(jobs[id := j], p)| == |RunningAt(jobs, p)| + if p == j.probe then 1 else 0
  {
    var jobs' := jobs[id := j];
    assert RunningSet(jobs') == RunningSet(jobs) + {id};
    forall p ensures |RunningAt(jobs', p)| == |RunningAt(jobs, p)| + if p == j.probe then 1 else 0 {
      if p == j.probe {
        assert RunningAt(jobs', p) == RunningAt(jobs, p) + {id};
      } else {
        assert RunningAt(jobs', p) == RunningAt(jobs, p);
      }
    }
  }

  lemma {:induction false} StartedOne(jobs: Jobs, id: string, now: int)
    requires id in jobs && jobs[id].state == Queued
    ensures var r := Transition(jobs, id, Running, now, None);
            && r.Ok? && r.value.Keys == jobs.Keys && r.value[id].state == Running && r.value[id].probe == jobs[id].probe
            && (forall other :: other in jobs && other != id ==> r.value[other] == jobs[other])
            && |RunningSet(r.value)| == |RunningSet(jobs)| + 1
            && (forall p :: |RunningAt(r.value, p)| == |RunningAt(jobs, p)| + if p == jobs[id].probe then 1 else 0)
  {
    OneMoreRuns(jobs, id, Transition(jobs, id, Running, now, None).value[id]);
  }

  /** A claim of a queued job succeeds unless a limit is reached, and keeps the counters exact. */
  lemma {:induction false} ClaimExact(cfg: Config, b: Books, c: Candidate, now: int)
    requires Exact(b) && c.id in b.jobs && b.jobs[c.id].state == Queued && b.jobs[c.id].probe == c.probe
    ensures var (r, ok) := Claim(cfg, b, c, now);
            && Exact(r) && ok == !AtLimit(cfg, b.total, b.byProbe, c.probe) && r.jobs.Keys == b.jobs.Keys
            && r.total == b.total + (if ok then 1 else 0)
            && (forall p :: CountOf(r.byProbe, p) >= CountOf(b.byProbe, p))
            && (forall id :: id in b.jobs && id != c.id ==> r.jobs[id] == b.jobs[id])
            && r.jobs[c.id].state == if ok then Running else Queued
  {
    StartedOne(b.jobs, c.id, now);
  }

  /** Work conservation: what is still queued of the listing after the drain had to wait, because a limit is reached. The
      jobs outside the listing are left alone, and the drain never goes beyond the limit. */
  lemma {:induction false} DrainConservesWork(cfg: Config, b: Books, todo: seq<Candidate>, left: nat, now: int)
    requires Exact(b) && Distinct(todo) && AllQueued(b.jobs, todo) && b.total + left == cfg.maxInFlight
    ensures var r := ClaimAll(cfg, b, todo, left, now);
            && Exact(r) && b.total <= r.total <= cfg.maxInFlight && r.jobs.Keys == b.jobs.Keys
            && (forall p :: CountOf(r.byProbe, p) >= CountOf(b.byProbe, p))
            && (forall i :: 0 <= i < |todo| ==> r.jobs[todo[i].id].state == Running || AtLimit(cfg, r.total, r.byProbe, todo[i].probe))
            && (forall id :: id in b.jobs && (forall i :: 0 <= i < |todo| ==> todo[i].id != id) ==> r.jobs[id] == b.jobs[id])
    decreases |todo|
  {
    if todo != [] && left > 0 {
      var (b', ok) := Claim(cfg, b, todo[0], now);
      ClaimExact(cfg, b, todo[0], now);
      var rest := todo[1..];
      forall i | 0 <= i < |rest| ensures rest[i] == todo[i + 1] {}
      DrainConservesWork(cfg, b', rest, if ok then left - 1 else left, now);
      var r := ClaimAll(cfg, b, todo, left, now);
      assert r == ClaimAll(cfg, b', rest, if ok then left - 1 else left, now);
      assert r.jobs[todo[0].id] == b'.jobs[todo[0].id];
      forall i | 0 < i < |todo| ensures r.jobs[todo[i].id].state == Running || AtLimit(cfg, r.total, r.byProbe, todo[i].probe) {
        assert todo[i] == rest[i - 1];
      }
      forall id | id in b.jobs && (forall i :: 0 <= i < |todo| ==> todo[i].id != id) ensures r.jobs[id] == b.jobs[id] {
        assert forall i :: 0 <= i < |rest| ==> rest[i].id != id;
      }
    }
  }

  /** A drain starts nothing if and only if the limit is reached or every job of its listing is held by a limit. Jobs
      behind a listing that is full of held ones are not looked at, whatever room there is for them. */
  lemma {:induction false} DrainIdleIff(cfg: Config, b: Books, todo: seq<Candidate>, left: nat, now: int)
    requires Exact(b) && Distinct(todo) && AllQueued(b.jobs, todo) && b.total + left == cfg.maxInFlight
    ensures ClaimAll(cfg, b, todo, left, now).total == b.total
       <==> left == 0 || forall i :: 0 <= i < |todo| ==> AtLimit(cfg, b.total, b.byProbe, todo[i].probe)
    decreases |todo|
  {
    if todo != [] && left > 0 {
      ClaimExact(cfg, b, todo[0], now);
      var (b', ok) := Claim(cfg, b, todo[0], now);
      TailQueued(b'.jobs, todo);
      if ok {
        DrainTotal(cfg, b', todo[1..], left - 1, now);
      } else {
        DrainIdleIff(cfg, b, todo[1..], left, now);
        HeldAll(cfg, b, todo);
      }
    }
  }

  lemma {:induction false} HeldAll(cfg: Config, b: Books, todo: seq<Candidate>)
    requires todo != [] && AtLimit(cfg, b.total, b.byProbe, todo[0].probe)
    ensures (forall i :: 0 <= i < |todo| ==> AtLimit(cfg, b.total, b.byProbe, todo[i].probe))
       <==> (forall i :: 0 <= i < |todo[1..]| ==> AtLimit(cfg, b.total, b.byProbe, todo[1..][i].probe))
  {
    forall i | 0 <= i < |todo[1..]| ensures todo[1..][i] == todo[i + 1] {}
    forall i | 0 < i < |todo| ensures todo[i] == todo[1..][i - 1] {}
  }

  lemma {:induction false} DrainTotal(cfg: Config, b: Books, todo: seq<Candidate>, left: nat, now: int)
    requires Exact(b) && Distinct(todo) && AllQueued(b.jobs, todo) && b.total + left == cfg.maxInFlight
    ensures ClaimAll(cfg, b, todo, left, now).total >= b.total
  {
    DrainConservesWork(cfg, b, todo, left, now);
  }

  /** The jobs of a listing that run, in its order. */
  function Started(jobs: Jobs, todo: seq<Candidate>): seq<string> {
    if todo == [] then []
    else (if todo[0].id in jobs && jobs[todo[0].id].state == Running then [todo[0].id] else []) + Started(jobs, todo[1..])
  }

  lemma {:induction false} NoneStarted(jobs: Jobs, todo: seq<Candidate>)
    requires AllQueued(jobs, todo)
    ensures Started(jobs, todo) == []
  {
    if todo != [] {
      forall i | 0 <= i < |todo[1..]| ensures todo[1..][i] == todo[i + 1] {}
      NoneStarted(jobs, todo[1..]);
    }
  }

  /** The jobs handed to the dispatcher are those of the listing that run afterwards, in its order. */
  lemma {:induction false} DrainLogsWhatItStarts(cfg: Config, b: Books, todo: seq<Candidate>, left: nat, now: int)
    requires Exact(b) && Distinct(todo) && AllQueued(b.jobs, todo) && b.total + left == cfg.maxInFlight
    ensures var r := ClaimAll(cfg, b, todo, left, now); r.log == b.log + Started(r.jobs, todo)
    decreases |todo|
  {
    if todo == [] || left == 0 {
      NoneStarted(b.jobs, todo);
    } else {
      ClaimExact(cfg, b, todo[0], now);
      var (b', ok) := Claim(cfg, b, todo[0], now);
      TailQueued(b'.jobs, todo);
      DrainLogsWhatItStarts(cfg, b', todo[1..], if ok then left - 1 else left, now);
      HeadKept(cfg, b', todo, if ok then left - 1 else left, now);
      assert b'.log == b.log + if ok then [todo[0].id] else [];
    }
  }

  /** The rest of a drain leaves the first job of the listing alone. */
  lemma {:induction false} HeadKept(cfg: Config, b: Books, todo: seq<Candidate>, left: nat, now: int)
    requires todo != [] && todo[0].id in b.jobs && Exact(b) && b.total + left == cfg.maxInFlight
    requires Distinct(todo) && AllQueued(b.jobs, todo[1..])
    ensures var r := ClaimAll(cfg, b, todo[1..], left, now); todo[0].id in r.jobs && r.jobs[todo[0].id] == b.jobs[todo[0].id]
  {
    var rest := todo[1..];
    forall i | 0 <= i < |rest| ensures rest[i] == todo[i + 1] {}
    DrainConservesWork(cfg, b, rest, left, now);
  }

  /** The limit of the probe is reached. */
  predicate ProbeFull(cfg: Config, byProbe: Counts, probe: string) {
    cfg.maxPerProbe > 0 && CountOf(byProbe, probe) >= cfg.maxPerProbe
  }

  predicate Runs(jobs: Jobs, id: string) {
    id in jobs && jobs[id].state == Running
  }

  /** The drain after its first claim. */
  lemma {:induction false} AfterFirst(cfg: Config, b: Books, todo: seq<Candidate>, left: nat, now: int) returns (b': Books, left': nat)
    requires Exact(b) && Distinct(todo) && AllQueued(b.jobs, todo) && b.total + left == cfg.maxInFlight && left > 0 && todo != []
    ensures Exact(b') && Distinct(todo[1..]) && AllQueued(b'.jobs, todo[1..]) && b'.total + left' == cfg.maxInFlight
    ensures ClaimAll(cfg, b, todo, left, now) == ClaimAll(cfg, b', todo[1..], left', now)
  {
    ClaimExact(cfg, b, todo[0], now);
    var (next, ok) := Claim(cfg, b, todo[0], now);
    TailQueued(next.jobs, todo);
    b', left' := next, if ok then left - 1 else left;
  }

  /** While there is room, a job that is not claimed is held by its own probe. */
  lemma {:induction false} HeldByProbe(cfg: Config, b: Books, todo: seq<Candidate>, left: nat, now: int)
    requires Exact(b) && Distinct(todo) && AllQueued(b.jobs, todo) && b.total + left == cfg.maxInFlight && left > 0 && todo != []
    ensures var r := ClaimAll(cfg, b, todo, left, now); Runs(r.jobs, todo[0].id) || ProbeFull(cfg, r.byProbe, todo[0].probe)
  {
    ClaimExact(cfg, b, todo[0], now);
    var (b', ok) := Claim(cfg, b, todo[0], now);
    TailQueued(b'.jobs, todo);
    HeadKept(cfg, b', todo, if ok then left - 1 else left, now);
    DrainCounts(cfg, b', todo[1..], if ok then left - 1 else left, now, todo[0].probe);
  }

  lemma {:induction false} DrainCounts(cfg: Config, b: Books, todo: seq<Candidate>, left: nat, now: int, p: string)
    requires Exact(b) && Distinct(todo) && AllQueued(b.jobs, todo) && b.total + left == cfg.maxInFlight
    ensures CountOf(ClaimAll(cfg, b, todo, left, now).byProbe, p) >= CountOf(b.byProbe, p)
  {
    DrainConservesWork(cfg, b, todo, left, now);
  }

  /** A job is passed over for a younger one only if the limit of its own probe is reached. */
  lemma {:induction false} PassedOverByProbe(cfg: Config, b: Books, todo: seq<Candidate>, left: nat, now: int, i: nat, j: nat)
    requires Exact(b) && Distinct(todo) && AllQueued(b.jobs, todo) && b.total + left == cfg.maxInFlight && i < j < |todo|
    ensures var r := ClaimAll(cfg, b, todo, left, now);
            Runs(r.jobs, todo[j].id) && !Runs(r.jobs, todo[i].id) ==> ProbeFull(cfg, r.byProbe, todo[i].probe)
    decreases |todo|
  {
    if left > 0 && i == 0 {
      HeldByProbe(cfg, b, todo, left, now);
    } else if left > 0 {
      var b', left' := AfterFirst(cfg, b, todo, left, now);
      var rest := todo[1..];
      assert rest[i - 1] == todo[i] && rest[j - 1] == todo[j];
      PassedOverByProbe(cfg, b', rest, left', now, i - 1, j - 1);
    }
  }

  function Ids(todo: seq<Candidate>): seq<string> {
    if todo == [] then [] else [todo[0].id] + Ids(todo[1..])
  }

  /** Without a limit per probe a job is claimed whenever there is room. */
  lemma {:induction false} ClaimsFirst(cfg: Config, b: Books, todo: seq<Candidate>, now: int)
    requires cfg.maxPerProbe <= 0 && Exact(b) && Distinct(todo) && AllQueued(b.jobs, todo) && b.total < cfg.maxInFlight && todo != []
    ensures var (b', ok) := Claim(cfg, b, todo[0], now);
            ok && Exact(b') && b'.total == b.total + 1 && b'.log == b.log + [todo[0].id] && AllQueued(b'.jobs, todo[1..]) && Distinct(todo[1..])
  {
    ClaimExact(cfg, b, todo[0], now);
    TailQueued(Claim(cfg, b, todo[0], now).0.jobs, todo);
  }

  /** Without a limit per probe the jobs started are the first of the listing, as many as there is room for. */
  lemma {:induction false} StartsTheOldest(cfg: Config, b: Books, todo: seq<Candidate>, left: nat, now: int)
    requires cfg.maxPerProbe <= 0 && Exact(b) && Distinct(todo) && AllQueued(b.jobs, todo) && b.total + left == cfg.maxInFlight
    ensures var n := if left < |todo| then left else |todo|;
            ClaimAll(cfg, b, todo, left, now).log == b.log + Ids(todo[..n])
    decreases |todo|
  {
    if todo == [] || left == 0 {
      assert todo[..0] == [] && b.log + [] == b.log;
    } else {
      ClaimsFirst(cfg, b, todo, now);
      StartsTheOldest(cfg, Claim(cfg, b, todo[0], now).0, todo[1..], left - 1, now);
      IdsMore(b.log, todo, if left < |todo| then left else |todo|);
    }
  }

  lemma {:induction false} TailQueued(jobs: Jobs, todo: seq<Candidate>)
    requires todo != [] && Distinct(todo) && forall i :: 0 < i < |todo| ==> todo[i].id in jobs && jobs[todo[i].id].state == Queued && jobs[todo[i].id].probe == todo[i].probe
    ensures Distinct(todo[1..]) && AllQueued(jobs, todo[1..])
  {
    var rest := todo[1..];
    forall i | 0 <= i < |rest| ensures rest[i] == todo[i + 1] {}
  }

  lemma {:induction false} IdsMore(log: seq<string>, todo: seq<Candidate>, n: nat)
    requires 0 < n <= |todo|
    ensures (log + [todo[0].id]) + Ids(todo[1..][..n - 1]) == log + Ids(todo[..n])
  {
    assert todo[..n][1..] == todo[1..][..n - 1] && todo[..n][0] == todo[0];
  }
}
