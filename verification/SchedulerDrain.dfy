/** The scheduler's own loops over the job store. */
module SchedulerDrain {
  import opened Text
  import opened AsyncJobs
  import opened AsyncScheduler
  import Ranking

  /** The oldest queued jobs, in order of age, as many as the limit allows. */
  ghost predicate IsListing(jobs: Jobs, todo: seq<Candidate>, limit: nat) {
    && Distinct(todo) && AllQueued(jobs, todo)
    && |todo| <= limit && (|todo| < limit ==> forall id :: id in QueuedSet(jobs) ==> Listed(todo, id))
    && (forall i, j :: 0 <= i < j < |todo| && todo[i].id in jobs && todo[j].id in jobs ==> jobs[todo[i].id].created <= jobs[todo[j].id].created)
    && (forall i, id :: 0 <= i < |todo| && todo[i].id in jobs && id in QueuedSet(jobs) && !Listed(todo, id) ==> jobs[todo[i].id].created <= jobs[id].created)
  }

  ghost predicate Listed(todo: seq<Candidate>, id: string) {
    exists i :: 0 <= i < |todo| && todo[i].id == id
  }

  /** The job runs, or one of the limits is reached for it. */
  ghost predicate Served(cfg: Config, jobs: Jobs, c: Candidate) {
    c.id in jobs && (jobs[c.id].state == Running || AtLimit(cfg, |RunningSet(jobs)|, GroupCounts(jobs), c.probe))
  }

  ghost predicate Untouched(before: Jobs, after: Jobs, todo: seq<Candidate>, id: string)
    requires id in before
  {
    !Listed(todo, id) ==> id in after && after[id] == before[id]
  }

  /** Every job of the listing is served, the others are untouched, and the limit on running jobs is not passed. */
  ghost predicate Drained(cfg: Config, before: Jobs, after: Jobs, todo: seq<Candidate>) {
    && after.Keys == before.Keys
    && (forall i {:trigger Served(cfg, after, todo[i])} :: 0 <= i < |todo| ==> Served(cfg, after, todo[i]))
    && (forall id {:trigger Untouched(before, after, todo, id)} :: id in before ==> Untouched(before, after, todo, id))
    && |RunningSet(before)| <= |RunningSet(after)|
    && (|RunningSet(after)| <= cfg.maxInFlight || after == before)
  }

  predicate Fair(cfg: Config, jobs: Jobs, todo: seq<Candidate>, i: nat, j: nat)
    requires i < j < |todo|
  {
    Runs(jobs, todo[j].id) && !Runs(jobs, todo[i].id) ==> ProbeFull(cfg, GroupCounts(jobs), todo[i].probe)
  }

  /** A job is passed over for a younger one only if the limit of its own probe is reached. */
  ghost predicate InOrder(cfg: Config, jobs: Jobs, todo: seq<Candidate>) {
    forall i: nat, j: nat {:trigger Fair(cfg, jobs, todo, i, j)} :: i < j < |todo| ==> Fair(cfg, jobs, todo, i, j)
  }

  class Scheduler {
    const cfg: Config
    var jobs: Jobs
    var log: seq<string>

    constructor (cfg: Config)
      ensures this.cfg == Normalize(cfg) && jobs == map[] && log == []
    {
      this.cfg := Normalize(cfg);
      jobs, log := map[], [];
    }

    /** RunningAsyncJobsByProbe and the sum over its groups: the groups add up to all running jobs. */
    method CountRunning() returns (total: nat, byProbe: Counts)
      ensures total == |RunningSet(jobs)| && byProbe == GroupCounts(jobs)
    {
      byProbe := GroupCounts(jobs);
      total := 0;
      var todo := byProbe.Keys;
      ghost var counted: set<string> := {};
      while todo != {}
        invariant todo <= byProbe.Keys && total == |counted|
        invariant forall id :: id in counted <==> id in RunningSet(jobs) && jobs[id].probe !in todo
        decreases todo
      {
        var p :| p in todo;
        total := total + byProbe[p];
        assert counted !! RunningAt(jobs, p);
        counted := counted + RunningAt(jobs, p);
        todo := todo - {p};
      }
      assert counted == RunningSet(jobs);
    }

    /** One row of the listing: the oldest of some queued jobs. */
    method Oldest(ids: set<string>) returns (least: string)
      requires ids != {} && ids <= jobs.Keys
      ensures least in ids && forall id :: id in ids ==> jobs[least].created <= jobs[id].created
    {
      least :| least in ids;
      var rest := ids - {least};
      while rest != {}
        invariant rest <= ids && least in ids
        invariant forall id :: id in ids - rest ==> jobs[least].created <= jobs[id].created
        decreases rest
      {
        var id :| id in rest;
        if jobs[id].created < jobs[least].created { least := id; }
        rest := rest - {id};
      }
    }

    /** ListAsyncJobsByState(queued, limit) */
    method ListQueued(limit: nat) returns (todo: seq<Candidate>)
      ensures IsListing(jobs, todo, limit)
    {
      todo := [];
      var left := QueuedSet(jobs);
      while left != {} && |todo| < limit
        invariant left <= QueuedSet(jobs) && |todo| <= limit && AllQueued(jobs, todo) && Distinct(todo)
        invariant forall id :: id in QueuedSet(jobs) ==> (id in left <==> !Listed(todo, id))
        invariant forall i, id :: 0 <= i < |todo| && todo[i].id in jobs && id in left ==> jobs[todo[i].id].created <= jobs[id].created
        invariant forall i, j :: 0 <= i < j < |todo| && todo[i].id in jobs && todo[j].id in jobs ==> jobs[todo[i].id].created <= jobs[todo[j].id].created
        decreases left
      {
        var id := Oldest(left);
        ghost var before := todo;
        todo := todo + [Candidate(id, jobs[id].probe)];
        left := left - {id};
        ListedMore(before, Candidate(id, jobs[id].probe));
        assert forall i :: 0 <= i < |before| ==> Listed(before, before[i].id);
      }
    }

    /** drainQueued with nothing in between: jobs of its listing that are still queued afterwards were held by a limit. */
    method Drain(now: int) returns (todo: seq<Candidate>)
      requires cfg.maxInFlight >= 1 && cfg.batch >= 1
      modifies this
      ensures IsListing(old(jobs), todo, cfg.batch) || (todo == [] && |RunningSet(old(jobs))| >= cfg.maxInFlight)
      ensures Drained(cfg, old(jobs), jobs, todo) && InOrder(cfg, jobs, todo) && log == old(log) + Started(jobs, todo)
    {
      todo := [];
      var total, byProbe := CountRunning();
      if cfg.maxInFlight - total <= 0 { return; }
      todo := ListQueued(cfg.batch);
      assert Distinct(todo) && AllQueued(jobs, todo);
      DrainListing(todo, total, byProbe, now);
    }

    method DrainListing(todo: seq<Candidate>, total: nat, byProbe: Counts, now: int)
      requires total == |RunningSet(jobs)| <= cfg.maxInFlight && byProbe == GroupCounts(jobs)
      requires Distinct(todo) && AllQueued(jobs, todo)
      modifies this
      ensures Drained(cfg, old(jobs), jobs, todo) && InOrder(cfg, jobs, todo) && log == old(log) + Started(jobs, todo)
    {
      SnapshotExact(Books(jobs, total, byProbe, log));
      ListingClaimed(cfg, Books(jobs, total, byProbe, log), todo, now);
      ListingInOrder(cfg, Books(jobs, total, byProbe, log), todo, now);
      ClaimListing(todo, total, byProbe, now);
    }

    /** The claiming loop. */
    method ClaimListing(todo: seq<Candidate>, total0: nat, byProbe0: Counts, now: int)
      requires total0 <= cfg.maxInFlight
      modifies this
      ensures var r := ClaimAll(cfg, Books(old(jobs), total0, byProbe0, old(log)), todo, cfg.maxInFlight - total0, now);
              jobs == r.jobs && log == r.log
    {
      var total, byProbe, left, i := total0, byProbe0, cfg.maxInFlight - total0, 0;
      ghost var end := ClaimAll(cfg, Books(jobs, total0, byProbe0, log), todo, left, now);
      assert todo[0..] == todo;
      while i < |todo| && left > 0
        invariant 0 <= i <= |todo| && left >= 0
        invariant ClaimAll(cfg, Books(jobs, total, byProbe, log), todo[i..], left, now) == end
      {
        ghost var rest := todo[i..];
        assert rest[1..] == todo[i + 1..] && rest[0] == todo[i];
        var (b, ok) := Claim(cfg, Books(jobs, total, byProbe, log), todo[i], now);
        jobs, total, byProbe, log := b.jobs, b.total, b.byProbe, b.log;
        if ok { left := left - 1; }
        i := i + 1;
      }
    }
  }

  lemma {:induction false} ListedMore(todo: seq<Candidate>, c: Candidate)
    ensures forall id :: Listed(todo + [c], id) <==> Listed(todo, id) || id == c.id
  {
    forall id ensures Listed(todo + [c], id) <==> Listed(todo, id) || id == c.id {
      if Listed(todo, id) {
        var i :| 0 <= i < |todo| && todo[i].id == id;
        assert (todo + [c])[i].id == id;
      }
      assert (todo + [c])[|todo|] == c;
    }
  }

  /** The snapshot taken at the beginning of a drain is exact. */
  lemma {:induction false} SnapshotExact(b: Books)
    requires b.total == |RunningSet(b.jobs)| && b.byProbe == GroupCounts(b.jobs)
    ensures Exact(b)
  {
    forall p ensures CountOf(b.byProbe, p) == |RunningAt(b.jobs, p)| { GroupCountsExact(b.jobs, p); }
  }

  lemma {:induction false} ListingServed(cfg: Config, b: Books, todo: seq<Candidate>, left: nat, now: int, i: nat)
    requires Exact(b) && Distinct(todo) && AllQueued(b.jobs, todo) && b.total + left == cfg.maxInFlight && i < |todo|
    ensures Served(cfg, ClaimAll(cfg, b, todo, left, now).jobs, todo[i])
  {
    DrainConservesWork(cfg, b, todo, left, now);
    DrainCountsExact(cfg, b, todo, left, now, todo[i].probe);
  }

  lemma {:induction false} OthersUntouched(cfg: Config, b: Books, todo: seq<Candidate>, left: nat, now: int, id: string)
    requires Exact(b) && Distinct(todo) && AllQueued(b.jobs, todo) && b.total + left == cfg.maxInFlight && id in b.jobs
    ensures Untouched(b.jobs, ClaimAll(cfg, b, todo, left, now).jobs, todo, id)
  {
    DrainConservesWork(cfg, b, todo, left, now);
    assert !Listed(todo, id) ==> forall i :: 0 <= i < |todo| ==> todo[i].id != id;
  }

  lemma {:induction false} DrainTotals(cfg: Config, b: Books, todo: seq<Candidate>, left: nat, now: int)
    requires Exact(b) && Distinct(todo) && AllQueued(b.jobs, todo) && b.total + left == cfg.maxInFlight
    ensures var jobs := ClaimAll(cfg, b, todo, left, now).jobs; jobs.Keys == b.jobs.Keys && b.total <= |RunningSet(jobs)| <= cfg.maxInFlight
  {
    DrainConservesWork(cfg, b, todo, left, now);
  }

  lemma {:induction false} ListingClaimed(cfg: Config, b: Books, todo: seq<Candidate>, now: int)
    requires Exact(b) && b.total <= cfg.maxInFlight && Distinct(todo) && AllQueued(b.jobs, todo)
    ensures var r := ClaimAll(cfg, b, todo, cfg.maxInFlight - b.total, now);
            Drained(cfg, b.jobs, r.jobs, todo)
  {
    var left := cfg.maxInFlight - b.total;
    var r := ClaimAll(cfg, b, todo, left, now);
    DrainTotals(cfg, b, todo, left, now);
    forall i | 0 <= i < |todo| ensures Served(cfg, r.jobs, todo[i]) { ListingServed(cfg, b, todo, left, now, i); }
    forall id | id in b.jobs ensures Untouched(b.jobs, r.jobs, todo, id) { OthersUntouched(cfg, b, todo, left, now, id); }
  }

  lemma {:induction false} ListingInOrder(cfg: Config, b: Books, todo: seq<Candidate>, now: int)
    requires Exact(b) && b.total <= cfg.maxInFlight && Distinct(todo) && AllQueued(b.jobs, todo)
    ensures var r := ClaimAll(cfg, b, todo, cfg.maxInFlight - b.total, now);
            InOrder(cfg, r.jobs, todo) && r.log == b.log + Started(r.jobs, todo)
  {
    var left := cfg.maxInFlight - b.total;
    var r := ClaimAll(cfg, b, todo, left, now);
    DrainLogsWhatItStarts(cfg, b, todo, left, now);
    forall i: nat, j: nat | i < j < |todo| ensures Fair(cfg, r.jobs, todo, i, j) {
      DrainCountsExact(cfg, b, todo, left, now, todo[i].probe);
      PassedOverByProbe(cfg, b, todo, left, now, i, j);
    }
  }

  lemma {:induction false} DrainCountsExact(cfg: Config, b: Books, todo: seq<Candidate>, left: nat, now: int, probe: string)
    requires Exact(b) && Distinct(todo) && AllQueued(b.jobs, todo) && b.total + left == cfg.maxInFlight
    ensures var r := ClaimAll(cfg, b, todo, left, now); CountOf(r.byProbe, probe) == CountOf(GroupCounts(r.jobs), probe)
  {
    DrainConservesWork(cfg, b, todo, left, now);
    GroupCountsExact(ClaimAll(cfg, b, todo, left, now).jobs, probe);
  }
}
