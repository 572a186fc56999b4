/** Durable async jobs: their states, the store's transitions and what no operation can undo. */
module AsyncJobs {
  import opened Text

  datatype State = Queued | WaitingApproval | Running | Succeeded | Failed | Expired | Cancelled

  predicate Terminal(s: State) {
    s in {Succeeded, Failed, Expired, Cancelled}
  }

  /** canTransitionAsyncJob */
  predicate CanTransition(from: State, to: State) {
    || from == to
    || match from
       case Queued => to in {Running, WaitingApproval, Cancelled, Expired, Failed}
       case WaitingApproval => to in {Running, Cancelled, Expired, Failed}
       case Running => to in {Succeeded, Failed, Expired, Cancelled}
       case _ => false
  }

  function Rank(s: State): nat {
    match s
    case Queued => 0
    case WaitingApproval => 1
    case Running => 2
    case _ => 3
  }

  datatype Job = Job(probe: string, created: int, state: State, started: Option<int>, finished: Option<int>, expires: Option<int>)

  type Jobs = map<string, Job>

  // ---- the operations of the store, each one transaction ----

  /** TransitionAsyncJob; `expires` is the window a wait for approval may carry. A job already there is left as it is. */
  function Transition(jobs: Jobs, id: string, to: State, now: int, expires: Option<int>): (r: Result<Jobs>) {
    if id !in jobs then Err("not found")
    else if jobs[id].state == to then Ok(jobs)
    else if !CanTransition(jobs[id].state, to) then Err("invalid async job transition")
    else Ok(jobs[id := jobs[id].(
      state := to,
      started := if to == Running then Some(now) else jobs[id].started,
      finished := if Terminal(to) then Some(now) else jobs[id].finished,
      expires := if expires.Some? then expires else if to != WaitingApproval then None else jobs[id].expires)])
  }

  /** ApproveAsyncJob */
  function Approve(jobs: Jobs, id: string, now: int): Result<Jobs> {
    if id !in jobs then Err("not found")
    else if jobs[id].state != WaitingApproval then Err("async job conflict")
    else Ok(jobs[id := jobs[id].(state := Running, started := Some(now))])
  }

  /** RejectAsyncJob */
  function Reject(jobs: Jobs, id: string, now: int): Result<Jobs> {
    if id !in jobs then Err("not found")
    else if jobs[id].state != WaitingApproval then Err("async job conflict")
    else Ok(jobs[id := jobs[id].(state := Failed, finished := Some(now))])
  }

  /** ExpireRunningAsyncJobs */
  function ExpireRunning(jobs: Jobs, now: int): Jobs {
    map id | id in jobs :: if jobs[id].state == Running then jobs[id].(state := Expired, finished := Some(now)) else jobs[id]
  }

  /** ExpireWaitingApprovalAsyncJobs */
  function ExpireWaiting(jobs: Jobs, now: int): Jobs {
    map id | id in jobs ::
      if jobs[id].state == WaitingApproval && jobs[id].expires.Some? && jobs[id].expires.value <= now
      then jobs[id].(state := Expired, finished := Some(now)) else jobs[id]
  }

  /** The INSERT of CreateAsyncJob; an id that is taken is refused. */
  function Create(jobs: Jobs, id: string, probe: string, created: int): Jobs {
    if id in jobs then jobs else jobs[id := Job(probe, created, Queued, None, None, None)]
  }

  datatype Op =
    | Move(id: string, to: State, now: int, expires: Option<int>)
    | ApproveOp(id: string, now: int)
    | RejectOp(id: string, now: int)
    | ExpireRunningOp(now: int)
    | ExpireWaitingOp(now: int)
    | Extend(id: string, newExpiry: int)

  function OrElse(r: Result<Jobs>, jobs: Jobs): Jobs {
    if r.Ok? then r.value else jobs
  }

  /** Everything outside the scheduler and admission that changes a job. A refused operation changes nothing. */
  function Do(jobs: Jobs, op: Op): Jobs {
    match op
    case Move(id, to, now, expires) => OrElse(Transition(jobs, id, to, now, expires), jobs)
    case ApproveOp(id, now) => OrElse(Approve(jobs, id, now), jobs)
    case RejectOp(id, now) => OrElse(Reject(jobs, id, now), jobs)
    case ExpireRunningOp(now) => ExpireRunning(jobs, now)
    case ExpireWaitingOp(now) => ExpireWaiting(jobs, now)
    case Extend(id, newExpiry) =>
      if id in jobs && jobs[id].state == WaitingApproval then jobs[id := jobs[id].(expires := Some(newExpiry))] else jobs
  }

  // ---- the life of a job ----

  /** A finish time exactly for the terminal states, and a start time for everything that ran. */
  predicate JobGood(j: Job) {
    && (j.finished.Some? <==> Terminal(j.state))
    && (j.state in {Running, Succeeded} ==> j.started.Some?)
  }

  ghost predicate AllGood(jobs: Jobs) {
    forall id :: id in jobs ==> JobGood(jobs[id])
  }

  /** One job only ever moves on: the same state, or one further along the table. What is terminal is final. */
  predicate MovesOn(a: Job, b: Job) {
    && a.probe == b.probe && a.created == b.created
    && CanTransition(a.state, b.state)
    && (a.state != b.state ==> Rank(a.state) < Rank(b.state))
    && (Terminal(a.state) ==> a == b)
  }

  /** No job is lost, and every job moves on. */
  ghost predicate Later(jobs: Jobs, jobs': Jobs) {
    forall id :: id in jobs ==> id in jobs' && MovesOn(jobs[id], jobs'[id])
  }

  lemma {:induction false} TransitionMovesOn(jobs: Jobs, id: string, to: State, now: int, expires: Option<int>)
    ensures var r := Transition(jobs, id, to, now, expires);
            r.Ok? ==> Later(jobs, r.value) && (AllGood(jobs) ==> AllGood(r.value)) && r.value.Keys == jobs.Keys && r.value[id].state == to
    ensures Transition(jobs, id, to, now, expires).Ok? <==> id in jobs && CanTransition(jobs[id].state, to)
  {}

  lemma {:induction false} ApproveMovesOn(jobs: Jobs, id: string, now: int)
    ensures var jobs' := OrElse(Approve(jobs, id, now), jobs); Later(jobs, jobs') && (AllGood(jobs) ==> AllGood(jobs')) && jobs'.Keys == jobs.Keys
  {}

  lemma {:induction false} RejectMovesOn(jobs: Jobs, id: string, now: int)
    ensures var jobs' := OrElse(Reject(jobs, id, now), jobs); Later(jobs, jobs') && (AllGood(jobs) ==> AllGood(jobs')) && jobs'.Keys == jobs.Keys
  {}

  lemma {:induction false} ExpireRunningMovesOn(jobs: Jobs, now: int)
    ensures var jobs' := ExpireRunning(jobs, now); Later(jobs, jobs') && (AllGood(jobs) ==> AllGood(jobs')) && jobs'.Keys == jobs.Keys
  {}

  lemma {:induction false} ExpireWaitingMovesOn(jobs: Jobs, now: int)
    ensures var jobs' := ExpireWaiting(jobs, now); Later(jobs, jobs') && (AllGood(jobs) ==> AllGood(jobs')) && jobs'.Keys == jobs.Keys
  {}

  lemma {:induction false} DoMovesOn(jobs: Jobs, op: Op)
    ensures Later(jobs, Do(jobs, op)) && (AllGood(jobs) ==> AllGood(Do(jobs, op))) && Do(jobs, op).Keys == jobs.Keys
  {
    match op
    case Move(id, to, now, expires) => TransitionMovesOn(jobs, id, to, now, expires);
    case ApproveOp(id, now) => ApproveMovesOn(jobs, id, now);
    case RejectOp(id, now) => RejectMovesOn(jobs, id, now);
    case ExpireRunningOp(now) => ExpireRunningMovesOn(jobs, now);
    case ExpireWaitingOp(now) => ExpireWaitingMovesOn(jobs, now);
    case Extend(_, _) =>
  }

  // ---- which operation does what ----

  predicate Moves(op: Op, id: string, to: State) {
    op.Move? && op.id == id && op.to == to
  }

  /** How a job that has not ended comes to run, to wait or to end: the operation names it, or takes all jobs like it. */
  lemma {:induction false} EntersIff(jobs: Jobs, op: Op, id: string, to: State)
    requires id in jobs && jobs[id].state != to
    ensures id in Do(jobs, op)
    ensures var j := jobs[id];
            Do(jobs, op)[id].state == to <==>
            match to
            case Queued => false
            case WaitingApproval => Moves(op, id, to) && j.state == Queued
            case Running => (Moves(op, id, to) && j.state in {Queued, WaitingApproval}) || (op.ApproveOp? && op.id == id && j.state == WaitingApproval)
            case Succeeded => Moves(op, id, to) && j.state == Running
            case Failed => (Moves(op, id, to) && j.state in {Queued, WaitingApproval, Running}) || (op.RejectOp? && op.id == id && j.state == WaitingApproval)
            case Cancelled => Moves(op, id, to) && j.state in {Queued, WaitingApproval, Running}
            case Expired =>
              || (Moves(op, id, to) && j.state in {Queued, WaitingApproval, Running})
              || (op.ExpireRunningOp? && j.state == Running)
              || (op.ExpireWaitingOp? && j.state == WaitingApproval && j.expires.Some? && j.expires.value <= op.now)
  {
    DoMovesOn(jobs, op);
  }

  /** A job that changes its state is stamped with the time of the operation, and one that does not keeps its stamps. */
  lemma {:induction false} StampsTell(jobs: Jobs, op: Op, id: string)
    requires id in jobs
    ensures id in Do(jobs, op)
    ensures var j, j' := jobs[id], Do(jobs, op)[id];
            && (j'.state == j.state ==> j'.started == j.started && j'.finished == j.finished)
            && (j'.state != j.state ==> !op.Extend? && j'.started == if j'.state == Running then Some(op.now) else j.started)
            && (j'.state != j.state ==> j'.finished == if j'.state in {Succeeded, Failed, Expired, Cancelled} then Some(op.now) else j.finished)
  {
    DoMovesOn(jobs, op);
  }

  /** When a wait for approval is over: a window that came with the wait, or the one it was last extended to. */
  lemma {:induction false} WindowTells(jobs: Jobs, op: Op, id: string)
    requires id in jobs && id in Do(jobs, op) && Do(jobs, op)[id].state == WaitingApproval
    ensures var j, j' := jobs[id], Do(jobs, op)[id];
            && (j.state == Queued ==> Moves(op, id, WaitingApproval) && j'.expires == if op.expires.Some? then op.expires else j.expires)
            && (j.state == WaitingApproval ==> j'.expires == if op.Extend? && op.id == id then Some(op.newExpiry) else j.expires)
            && j.state in {Queued, WaitingApproval}
  {
    DoMovesOn(jobs, op);
    if jobs[id].state != WaitingApproval { EntersIff(jobs, op, id, WaitingApproval); }
  }

  // ---- whole histories ----

  function After(jobs: Jobs, ops: seq<Op>): Jobs {
    if ops == [] then jobs else After(Do(jobs, ops[0]), ops[1..])
  }

  /** How often a job changes its state along a history. */
  function Changes(jobs: Jobs, ops: seq<Op>, id: string): nat
    requires id in jobs
  {
    if ops == [] then 0
    else
      assert id in Do(jobs, ops[0]) by { DoMovesOn(jobs, ops[0]); }
      (if Do(jobs, ops[0])[id].state != jobs[id].state then 1 else 0) + Changes(Do(jobs, ops[0]), ops[1..], id)
  }

  /** Over every history a job changes its state at most three times, never leaves a terminal state, and keeps its times
      in step with its state. */
  lemma {:induction false} LifeOfAJob(jobs: Jobs, ops: seq<Op>, id: string)
    requires id in jobs && AllGood(jobs)
    ensures id in After(jobs, ops) && AllGood(After(jobs, ops))
    ensures Rank(jobs[id].state) + Changes(jobs, ops, id) <= Rank(After(jobs, ops)[id].state) <= 3
    ensures Terminal(jobs[id].state) ==> After(jobs, ops)[id] == jobs[id]
  {
    if ops != [] {
      DoMovesOn(jobs, ops[0]);
      LifeOfAJob(Do(jobs, ops[0]), ops[1..], id);
    }
  }

  /** Some operation of the history starts the job. */
  ghost predicate StartedIn(ops: seq<Op>, id: string) {
    exists i :: 0 <= i < |ops| && Starts(ops[i], id)
  }

  predicate Starts(op: Op, id: string) {
    (op.ApproveOp? && op.id == id) || Moves(op, id, Running)
  }

  /** A job that runs or has succeeded was started by a claim or by an approval: nothing else ever runs. */
  lemma {:induction false} RunsOnlyIfStarted(jobs: Jobs, ops: seq<Op>, id: string)
    requires id in jobs && jobs[id].state in {Queued, WaitingApproval} && !StartedIn(ops, id)
    ensures id in After(jobs, ops) && After(jobs, ops)[id].state !in {Running, Succeeded}
  {
    if ops != [] {
      DoMovesOn(jobs, ops[0]);
      NotStarted(jobs, ops[0], id);
      var jobs' := Do(jobs, ops[0]);
      if Terminal(jobs'[id].state) {
        EndedStays(jobs', ops[1..], id);
      } else {
        forall i | 0 <= i < |ops[1..]| ensures !Starts(ops[1..][i], id) { assert ops[1..][i] == ops[i + 1]; }
        RunsOnlyIfStarted(jobs', ops[1..], id);
      }
    }
  }

  lemma {:induction false} NotStarted(jobs: Jobs, op: Op, id: string)
    requires id in jobs && jobs[id].state in {Queued, WaitingApproval} && !Starts(op, id)
    ensures id in Do(jobs, op) && Do(jobs, op)[id].state !in {Running, Succeeded}
  {
    EntersIff(jobs, op, id, Running);
    EntersIff(jobs, op, id, Succeeded);
  }

  lemma {:induction false} EndedStays(jobs: Jobs, ops: seq<Op>, id: string)
    requires id in jobs && Terminal(jobs[id].state)
    ensures id in After(jobs, ops) && After(jobs, ops)[id] == jobs[id]
  {
    if ops != [] {
      DoMovesOn(jobs, ops[0]);
      EndedStays(Do(jobs, ops[0]), ops[1..], id);
    }
  }
}
