/** The approval queue: quorum, expiry, eviction and order of approval requests. */
module ApprovalQueue {
  import opened Text

  datatype Decision = Pending | Approved | Denied | Expired

  datatype Request = Request(required: int, second: bool, approvals: seq<string>, decision: Decision, decidedBy: string,
                             createdAt: int, expiresAt: int)

  /** RequiredApprovalCount: the least number that meets every demand of the request. */
  function Quorum(r: Request): (n: nat)
    ensures n >= 1 && n >= r.required && (r.second ==> n >= 2)
    ensures n == 1 || n == r.required || (r.second && n == 2)
  {
    if r.required > 1 then r.required else if r.second then 2 else 1
  }

  /** strings.EqualFold on trimmed names, for ASCII letters. */
  function Fold(actor: string): string {
    Lower(Trim(actor))
  }

  predicate HasApproved(r: Request, actor: string) {
    exists i :: 0 <= i < |r.approvals| && Fold(r.approvals[i]) == Fold(actor)
  }

  /** What Decide does to a pending request; `decision` may be anything, only two answers are valid. */
  datatype Answer = Approve | Deny | Other

  function Vote(r: Request, answer: Answer, who: string, now: int): Request {
    var actor := Trim(who);
    if actor == "" || r.decision != Pending then r
    else if now > r.expiresAt then r.(decision := Expired)
    else
      match answer
      case Other => r
      case Deny => r.(decision := Denied, decidedBy := actor)
      case Approve =>
        if HasApproved(r, actor) then r
        else
          var r' := r.(approvals := r.approvals + [actor]);
          if |r'.approvals| < Quorum(r') then r' else r'.(decision := Approved, decidedBy := actor)
  }

  /** The first loop of evictExpiredLocked. */
  function Age(r: Request, now: int): Request {
    if r.decision == Pending && now > r.expiresAt then r.(decision := Expired) else r
  }

  const DAY := 24 * 60 * 60 * 1_000_000_000

  predicate Stale(r: Request, now: int) {
    r.decision != Pending && r.createdAt < now - DAY
  }

  // ---- the invariant of a request ----

  predicate DistinctActors(names: seq<string>) {
    forall i, j :: 0 <= i < j < |names| ==> Fold(names[i]) != Fold(names[j])
  }

  /** Approvals come from distinct actors; the quorum is reached exactly by the approved requests. */
  predicate Good(r: Request) {
    && DistinctActors(r.approvals)
    && (r.decision == Approved <==> |r.approvals| >= Quorum(r))
    && (r.decision == Approved ==> |r.approvals| == Quorum(r))
  }

  lemma {:induction false} VoteKeepsGood(r: Request, answer: Answer, who: string, now: int)
    requires Good(r)
    ensures Good(Vote(r, answer, who, now))
    ensures r.decision != Pending ==> Vote(r, answer, who, now) == r
  {}

  // ---- the life of one request ----

  datatype Event = Voted(answer: Answer, who: string, now: int) | Aged(now: int)

  function Apply(r: Request, e: Event): Request {
    match e
    case Voted(answer, who, now) => Vote(r, answer, who, now)
    case Aged(now) => Age(r, now)
  }

  function After(r: Request, events: seq<Event>): Request {
    if events == [] then r else Apply(After(r, events[..|events| - 1]), events[|events| - 1])
  }

  predicate IsFresh(r: Request) {
    r.decision == Pending && r.approvals == []
  }

  /** A vote for approval by this actor, in time. */
  predicate IsApproval(e: Event, actor: string, expiresAt: int) {
    e.Voted? && e.answer == Approve && Trim(e.who) == actor != "" && e.now <= expiresAt
  }

  ghost predicate VotedFor(events: seq<Event>, actor: string, expiresAt: int) {
    exists i :: 0 <= i < |events| && IsApproval(events[i], actor, expiresAt)
  }

  lemma {:induction false} VotedForMore(events: seq<Event>, e: Event, actor: string, expiresAt: int)
    ensures VotedFor(events, actor, expiresAt) ==> VotedFor(events + [e], actor, expiresAt)
    ensures IsApproval(e, actor, expiresAt) ==> VotedFor(events + [e], actor, expiresAt)
  {
    if VotedFor(events, actor, expiresAt) {
      var i :| 0 <= i < |events| && IsApproval(events[i], actor, expiresAt);
      assert (events + [e])[i] == events[i];
    }
    assert (events + [e])[|events|] == e;
  }

  /** Over every history: an approved request has a full quorum of distinct actors, each of whom voted for it in time. */
  lemma {:induction false} ApprovedHasQuorum(r: Request, events: seq<Event>)
    requires IsFresh(r)
    ensures var r' := After(r, events);
            && Good(r') && r'.expiresAt == r.expiresAt && Quorum(r') == Quorum(r)
            && (forall i :: 0 <= i < |r'.approvals| ==> VotedFor(events, r'.approvals[i], r.expiresAt))
  {
    if events != [] {
      var front, e := events[..|events| - 1], events[|events| - 1];
      ApprovedHasQuorum(r, front);
      assert events == front + [e];
      var before := After(r, front);
      if e.Voted? { VoteKeepsGood(before, e.answer, e.who, e.now); }
      var r' := After(r, events);
      forall i | 0 <= i < |r'.approvals| ensures VotedFor(events, r'.approvals[i], r.expiresAt) {
        VotedForMore(front, e, r'.approvals[i], r.expiresAt);
      }
    }
  }

  /** And nobody is overlooked: while a request is pending, everybody who voted for it is on record, so fewer than the quorum
      have. */
  lemma {:induction false} PendingCountsEverybody(r: Request, events: seq<Event>, actor: string)
    requires IsFresh(r) && After(r, events).decision == Pending && VotedFor(events, actor, r.expiresAt)
    ensures HasApproved(After(r, events), actor) && |After(r, events).approvals| < Quorum(r)
  {
    ApprovedHasQuorum(r, events);
    var front, e := events[..|events| - 1], events[|events| - 1];
    var before := After(r, front);
    assert before.decision == Pending;
    ApprovedHasQuorum(r, front);
    var i :| 0 <= i < |events| && IsApproval(events[i], actor, r.expiresAt);
    if i < |front| {
      assert front[i] == events[i];
      PendingCountsEverybody(r, front, actor);
      KeepsApprovers(before, e, actor);
    } else {
      TakesApprover(before, e, actor);
    }
  }

  lemma {:induction false} KeepsApprovers(r: Request, e: Event, actor: string)
    requires HasApproved(r, actor)
    ensures HasApproved(Apply(r, e), actor)
  {
    var i :| 0 <= i < |r.approvals| && Fold(r.approvals[i]) == Fold(actor);
    assert Apply(r, e).approvals[i] == r.approvals[i];
  }

  lemma {:induction false} TakesApprover(r: Request, e: Event, actor: string)
    requires r.decision == Pending && IsApproval(e, actor, r.expiresAt)
    ensures HasApproved(Apply(r, e), actor)
  {
    var r' := Apply(r, e);
    if !HasApproved(r, actor) { assert r'.approvals[|r.approvals|] == actor; }
  }

  /** A decision is final, whatever happens afterwards. */
  lemma {:induction false} DecidedForever(r: Request, events: seq<Event>)
    requires r.decision != Pending
    ensures After(r, events) == r
  {
    if events != [] { DecidedForever(r, events[..|events| - 1]); }
  }

  lemma {:induction false} AfterMore(r: Request, events: seq<Event>, more: seq<Event>)
    ensures After(r, events + more) == After(After(r, events), more)
  {
    if more == [] {
      assert events + more == events;
    } else {
      var front := more[..|more| - 1];
      assert (events + more)[..|events + more| - 1] == events + front;
      AfterMore(r, events, front);
    }
  }

  // ---- the whole queue ----

  type Requests = map<string, Request>

  datatype Limits = Limits(ttl: int, maxSize: int)

  /** Everything that changes the queue. Submitting evicts first, and so does listing. */
  datatype Call =
    | SubmitCall(id: string, second: bool, evictedAt: int, now: int)
    | DecideCall(id: string, answer: Answer, who: string, now: int)
    | EvictCall(now: int)

  /** evictExpiredLocked */
  function Evicted(requests: Requests, now: int): Requests {
    map id | id in requests && !Stale(Age(requests[id], now), now) :: Age(requests[id], now)
  }

  function New(l: Limits, second: bool, now: int): Request {
    Request(if second then 2 else 1, second, [], Pending, "", now, now + l.ttl)
  }

  function Do(l: Limits, requests: Requests, call: Call): Requests {
    match call
    case SubmitCall(id, second, evictedAt, now) =>
      var kept := Evicted(requests, evictedAt);
      if |kept| < l.maxSize then kept[id := New(l, second, now)] else kept
    case DecideCall(id, answer, who, now) => if id in requests then requests[id := Vote(requests[id], answer, who, now)] else requests
    case EvictCall(now) => Evicted(requests, now)
  }

  function Run(l: Limits, requests: Requests, calls: seq<Call>): Requests {
    if calls == [] then requests else Do(l, Run(l, requests, calls[..|calls| - 1]), calls[|calls| - 1])
  }

  /** What a call means for one request. */
  function Meant(call: Call, id: string): seq<Event> {
    match call
    case SubmitCall(_, _, evictedAt, _) => [Aged(evictedAt)]
    case DecideCall(who, answer, name, now) => if who == id then [Voted(answer, name, now)] else []
    case EvictCall(now) => [Aged(now)]
  }

  function AllMeant(calls: seq<Call>, id: string): seq<Event> {
    if calls == [] then [] else AllMeant(calls[..|calls| - 1], id) + Meant(calls[|calls| - 1], id)
  }

  ghost predicate NotSubmitted(calls: seq<Call>, id: string) {
    forall i :: 0 <= i < |calls| && calls[i].SubmitCall? ==> calls[i].id != id
  }

  lemma {:induction false} OneCall(l: Limits, requests: Requests, call: Call, id: string)
    requires id in requests && !(call.SubmitCall? && call.id == id)
    ensures var r := After(requests[id], Meant(call, id));
            if id in Do(l, requests, call) then Do(l, requests, call)[id] == r else r.decision != Pending
  {
    var events := Meant(call, id);
    if |events| == 1 {
      assert events[..0] == [] && After(requests[id], events) == Apply(requests[id], events[0]);
    }
  }

  /** Along every run of the queue a request goes through exactly the votes and the aging that the calls mean for it, and it
      is only ever dropped once it is decided: what is still pending stays. */
  lemma {:induction false} RunIsAfter(l: Limits, requests: Requests, calls: seq<Call>, id: string)
    requires id in requests && NotSubmitted(calls, id)
    ensures var r := After(requests[id], AllMeant(calls, id));
            if id in Run(l, requests, calls) then Run(l, requests, calls)[id] == r else r.decision != Pending
  {
    if calls != [] {
      var front, call := calls[..|calls| - 1], calls[|calls| - 1];
      RunIsAfter(l, requests, front, id);
      var before, events := Run(l, requests, front), Meant(call, id);
      AfterMore(requests[id], AllMeant(front, id), events);
      if id in before {
        OneCall(l, before, call, id);
      } else {
        DecidedForever(After(requests[id], AllMeant(front, id)), events);
      }
    }
  }

  /** A call to Decide in favour of the request, by this actor and in time. */
  ghost predicate Supported(calls: seq<Call>, id: string, actor: string, expiresAt: int) {
    exists i :: 0 <= i < |calls| && calls[i].DecideCall? && calls[i].id == id && calls[i].answer == Approve && Trim(calls[i].who) == actor && calls[i].now <= expiresAt
  }

  lemma {:induction false} VoteWasCalled(calls: seq<Call>, id: string, actor: string, expiresAt: int)
    requires VotedFor(AllMeant(calls, id), actor, expiresAt)
    ensures Supported(calls, id, actor, expiresAt)
  {
    if calls != [] {
      var front, call := calls[..|calls| - 1], calls[|calls| - 1];
      var i :| 0 <= i < |AllMeant(calls, id)| && IsApproval(AllMeant(calls, id)[i], actor, expiresAt);
      if i < |AllMeant(front, id)| {
        assert IsApproval(AllMeant(front, id)[i], actor, expiresAt);
        VoteWasCalled(front, id, actor, expiresAt);
        var j :| 0 <= j < |front| && front[j].DecideCall? && front[j].id == id && front[j].answer == Approve && Trim(front[j].who) == actor && front[j].now <= expiresAt;
        assert calls[j] == front[j];
      } else {
        assert calls[|calls| - 1] == call && call.DecideCall?;
      }
    }
  }

  /** Quorum over the whole queue: whatever else is submitted, decided and evicted, a request that was admitted and comes
      out approved has exactly its quorum of approvals, by distinct actors, each of whom called Decide for it in time. */
  lemma {:induction false} ApprovedInRun(l: Limits, requests: Requests, second: bool, now: int, calls: seq<Call>, id: string)
    requires id in requests && requests[id] == New(l, second, now) && NotSubmitted(calls, id)
    requires id in Run(l, requests, calls) && Run(l, requests, calls)[id].decision == Approved
    ensures var r := Run(l, requests, calls)[id];
            && |r.approvals| == (if second then 2 else 1) && DistinctActors(r.approvals)
            && forall i :: 0 <= i < |r.approvals| ==> Supported(calls, id, r.approvals[i], now + l.ttl)
  {
    RunIsAfter(l, requests, calls, id);
    ApprovedHasQuorum(requests[id], AllMeant(calls, id));
    var r := Run(l, requests, calls)[id];
    forall i | 0 <= i < |r.approvals| ensures Supported(calls, id, r.approvals[i], now + l.ttl) {
      VoteWasCalled(calls, id, r.approvals[i], now + l.ttl);
    }
  }

  lemma {:induction false} EvictedFits(requests: Requests, now: int)
    ensures |Evicted(requests, now)| <= |requests|
  {
    var m := Evicted(requests, now);
    assert |m| == |m.Keys| && |requests| == |requests.Keys| && requests.Keys == m.Keys + (requests.Keys - m.Keys);
  }

  /** The queue never holds more than it may. */
  lemma {:induction false} RunFits(l: Limits, calls: seq<Call>)
    ensures |Run(l, map[], calls)| <= if l.maxSize > 0 then l.maxSize else 0
  {
    if calls != [] {
      var front, call := calls[..|calls| - 1], calls[|calls| - 1];
      RunFits(l, front);
      var before := Run(l, map[], front);
      match call
      case SubmitCall(id, second, evictedAt, now) =>
        EvictedFits(before, evictedAt);
        OneMore(Evicted(before, evictedAt), id, New(l, second, now));
      case DecideCall(id, answer, who, now) => if id in before { SameKeys(before, id, Vote(before[id], answer, who, now)); }
      case EvictCall(now) => EvictedFits(before, now);
    }
  }

  lemma {:induction false} OneMore(requests: Requests, id: string, r: Request)
    ensures |requests[id := r]| <= |requests| + 1
  {
    var m := requests[id := r];
    assert |m| == |m.Keys| && |requests| == |requests.Keys| && m.Keys == requests.Keys + {id};
  }

  lemma {:induction false} SameKeys(requests: Requests, id: string, r: Request)
    requires id in requests
    ensures |requests[id := r]| == |requests|
  {
    assert requests[id := r].Keys == requests.Keys && |requests[id := r]| == |requests[id := r].Keys| && |requests| == |requests.Keys|;
  }
}
