/** The queue that holds approval requests: its map, its eviction loops and its listing. */
module ApprovalStore {
  import opened Text
  import opened ApprovalQueue

  datatype Item = Item(id: string, request: Request)

  predicate NewestFirst(s: seq<Item>) {
    forall i, j :: 0 <= i <= j < |s| ==> s[i].request.createdAt >= s[j].request.createdAt
  }

  /** Everything is in order up to `i`, except that the item at `j` may have to move further to the front. */
  ghost predicate AllButOne(s: seq<Item>, i: nat, j: nat) {
    && j <= i < |s|
    && (forall p, q :: 0 <= p <= q <= i && q != j ==> p == j || s[p].request.createdAt >= s[q].request.createdAt)
    && (forall q :: j < q <= i ==> s[j].request.createdAt >= s[q].request.createdAt)
  }

  lemma {:induction false} SwapKeepsItems(s: seq<Item>, j: nat)
    requires 0 < j < |s|
    ensures multiset(s[j := s[j - 1]][j - 1 := s[j]]) == multiset(s)
  {
    var t := s[j := s[j - 1]][j - 1 := s[j]];
    assert s == s[..j - 1] + [s[j - 1], s[j]] + s[j + 1..];
    assert t == s[..j - 1] + [s[j], s[j - 1]] + s[j + 1..];
    assert multiset([s[j - 1], s[j]]) == multiset([s[j], s[j - 1]]);
  }

  lemma {:induction false} SwapMoves(s: seq<Item>, i: nat, j: nat)
    requires AllButOne(s, i, j) && 0 < j && s[j].request.createdAt > s[j - 1].request.createdAt
    ensures AllButOne(s[j := s[j - 1]][j - 1 := s[j]], i, j - 1)
  {}

  /** sortRequestsByTime: insertion sort in place, the newest first. */
  method SortNewest(a: array<Item>)
    modifies a
    ensures NewestFirst(a[..]) && multiset(a[..]) == multiset(old(a[..]))
  {
    var i := 1;
    while i < a.Length
      invariant 1 <= i && (a.Length >= 1 ==> i <= a.Length)
      invariant a.Length >= 1 ==> NewestFirst(a[..i])
      invariant multiset(a[..]) == multiset(old(a[..]))
    {
      Place(a, i);
      i := i + 1;
    }
    if a.Length > 0 { assert a[..a.Length] == a[..]; }
  }

  /** The inner loop: move the item at `i` to its place. */
  method Place(a: array<Item>, i: nat)
    requires 1 <= i < a.Length && NewestFirst(a[..i])
    modifies a
    ensures NewestFirst(a[..i + 1]) && multiset(a[..]) == multiset(old(a[..]))
  {
    var j := i;
    assert forall p, q :: 0 <= p <= q < i ==> a[..i][p].request.createdAt >= a[..i][q].request.createdAt;
    while j > 0 && a[j].request.createdAt > a[j - 1].request.createdAt
      invariant 0 <= j <= i && AllButOne(a[..], i, j) && multiset(a[..]) == multiset(old(a[..]))
    {
      ghost var s := a[..];
      SwapKeepsItems(s, j);
      SwapMoves(s, i, j);
      a[j], a[j - 1] := a[j - 1], a[j];
      assert a[..] == s[j := s[j - 1]][j - 1 := s[j]];
      j := j - 1;
    }
    Placed(a[..], i, j);
  }

  lemma {:induction false} Placed(s: seq<Item>, i: nat, j: nat)
    requires AllButOne(s, i, j) && (j > 0 ==> s[j].request.createdAt <= s[j - 1].request.createdAt)
    ensures NewestFirst(s[..i + 1])
  {
    forall p, q | 0 <= p <= q <= i ensures s[p].request.createdAt >= s[q].request.createdAt {
      if q == j && p < j { assert s[p].request.createdAt >= s[j - 1].request.createdAt; }
    }
  }

  class Queue {
    const ttl: int
    const maxSize: int
    var requests: map<string, Request>

    /** Every request keeps the quorum invariant, and there are never more of them than the queue may hold. */
    ghost predicate Valid() reads this`requests {
      (forall id :: id in requests ==> Good(requests[id])) && (|requests| <= maxSize || requests == map[])
    }

    constructor (ttl: int, maxSize: int)
      ensures Valid() && requests == map[] && this.ttl == ttl && this.maxSize == maxSize
    {
      this.ttl, this.maxSize, requests := ttl, maxSize, map[];
    }

    /** The first loop of evictExpiredLocked: what is overdue expires. */
    method ExpireOverdue(now: int)
      modifies this`requests
      ensures requests.Keys == old(requests).Keys && forall id :: id in requests ==> requests[id] == Age(old(requests)[id], now)
    {
      ghost var before := requests;
      var todo := requests.Keys;
      while todo != {}
        invariant todo <= before.Keys == requests.Keys
        invariant forall id :: id in before ==> requests[id] == if id in todo then before[id] else Age(before[id], now)
        decreases todo
      {
        var id :| id in todo;
        if requests[id].decision == Pending && now > requests[id].expiresAt {
          requests := requests[id := requests[id].(decision := Expired)];
        }
        todo := todo - {id};
      }
    }

    /** The second loop: what was decided and is older than a day is dropped. */
    method DropStale(now: int)
      modifies this`requests
      ensures forall id :: id in requests <==> id in old(requests) && !Stale(old(requests)[id], now)
      ensures forall id :: id in requests ==> requests[id] == old(requests)[id]
    {
      ghost var before := requests;
      var todo := requests.Keys;
      while todo != {}
        invariant todo <= requests.Keys <= before.Keys
        invariant forall id :: id in requests ==> requests[id] == before[id]
        invariant forall id :: id in before ==> (id in requests <==> id in todo || !Stale(before[id], now))
        decreases todo
      {
        var id :| id in todo;
        if requests[id].decision != Pending && requests[id].createdAt < now - DAY { requests := requests - {id}; }
        todo := todo - {id};
      }
    }

    /** evictExpiredLocked: expire what is overdue, then drop what was decided and is older than a day. */
    method Evict(now: int)
      requires Valid()
      modifies this`requests
      ensures Valid() && requests == Evicted(old(requests), now)
    {
      ExpireOverdue(now);
      DropStale(now);
      assert requests == Evicted(old(requests), now);
      SmallerMap(requests, old(requests));
    }

    method Admit(id: string, r: Request)
      requires Valid() && |requests| < maxSize && Good(r)
      modifies this`requests
      ensures Valid() && requests == old(requests)[id := r]
    {
      OneMore(requests, id, r);
      requests := requests[id := r];
    }

    /** Submit under a new id, once the clock reads `now`. */
    method Submit(id: string, second: bool, evictedAt: int, now: int) returns (ok: bool)
      requires Valid() && id !in requests
      modifies this`requests
      ensures Valid()
      ensures ok == (|Evicted(old(requests), evictedAt)| < maxSize)
      ensures requests == Do(Limits(ttl, maxSize), old(requests), SubmitCall(id, second, evictedAt, now))
    {
      Evict(evictedAt);
      ghost var kept := requests;
      assert Do(Limits(ttl, maxSize), old(requests), SubmitCall(id, second, evictedAt, now)) ==
        if |kept| < maxSize then kept[id := New(Limits(ttl, maxSize), second, now)] else kept;
      if |requests| >= maxSize { return false; }
      Admit(id, Request(if second then 2 else 1, second, [], Pending, "", now, now + ttl));
      ok := true;
    }

    method AlreadyApproved(r: Request, actor: string) returns (yes: bool)
      ensures yes <==> HasApproved(r, actor)
    {
      yes := false;
      for i := 0 to |r.approvals|
        invariant yes <==> exists j :: 0 <= j < i && Fold(r.approvals[j]) == Fold(actor)
      {
        if Fold(r.approvals[i]) == Fold(actor) { yes := true; }
      }
    }

    /** Decide. It succeeds exactly when the request changes to something other than expired. */
    method Decide(id: string, answer: Answer, who: string, now: int) returns (r: Result<Request>)
      requires Valid()
      modifies this`requests
      ensures Valid()
      ensures requests == Do(Limits(ttl, maxSize), old(requests), DecideCall(id, answer, who, now))
      ensures r.Ok? <==> id in old(requests) && requests[id] != old(requests)[id] && requests[id].decision != Expired
      ensures r.Ok? ==> r.value == requests[id]
      ensures Trim(who) == "" || id !in old(requests) || old(requests)[id].decision != Pending ==> r.Err? && requests == old(requests)
      ensures Trim(who) != "" && id in old(requests) && old(requests)[id].decision == Pending ==>
              var was, next := old(requests)[id], requests[id];
              && (now > was.expiresAt ==> r.Err? && next == was.(decision := Expired))
              && (now <= was.expiresAt && answer == Deny ==> r.Ok? && next == was.(decision := Denied, decidedBy := Trim(who)))
              && (now <= was.expiresAt && answer == Approve && !HasApproved(was, Trim(who)) ==>
                    r.Ok? && next.approvals == was.approvals + [Trim(who)] && next.decision == if |next.approvals| < Quorum(was) then Pending else Approved)
              && (now <= was.expiresAt && (answer == Other || (answer == Approve && HasApproved(was, Trim(who)))) ==> r.Err? && next == was)
    {
      var actor := Trim(who);
      if actor == "" { return Err("decided_by is required"); }
      if id !in requests { return Err("approval request not found"); }
      var req := requests[id];
      VoteKeepsGood(req, answer, who, now);
      if req.decision != Pending { return Err("already decided"); }
      if now > req.expiresAt {
        requests := requests[id := req.(decision := Expired)];
        return Err("request expired");
      }
      match answer {
        case Other => return Err("invalid decision");
        case Deny =>
          requests := requests[id := req.(decision := Denied, decidedBy := actor)];
        case Approve =>
          var taken := AlreadyApproved(req, actor);
          if taken { return Err("approver has already approved"); }
          var next := req.(approvals := req.approvals + [actor]);
          if |next.approvals| >= Quorum(next) { next := next.(decision := Approved, decidedBy := actor); }
          requests := requests[id := next];
      }
      r := Ok(requests[id]);
    }

    /** The loop of Pending over the map. */
    method CollectPending() returns (items: seq<Item>)
      ensures Lists(requests, items)
    {
      items := [];
      var todo := requests.Keys;
      ghost var done: set<string> := {};
      while todo != {}
        invariant todo <= requests.Keys && |items| == |done|
        invariant forall id :: id in done <==> id in requests && id !in todo && requests[id].decision == Pending
        invariant forall x :: x in items <==> x.id in done && x.id in requests && x.request == requests[x.id]
        decreases todo
      {
        var id :| id in todo;
        if requests[id].decision == Pending {
          items := items + [Item(id, requests[id])];
          done := done + {id};
        }
        todo := todo - {id};
      }
      assert done == PendingIds(requests);
    }

    /** Pending: the requests that are still pending, each once, the newest first. */
    method ListPending(now: int) returns (items: seq<Item>)
      requires Valid()
      modifies this`requests
      ensures Valid() && requests == Do(Limits(ttl, maxSize), old(requests), EvictCall(now))
      ensures Lists(requests, items) && NewestFirst(items)
    {
      Evict(now);
      var found := CollectPending();
      var a := new Item[|found|](i requires 0 <= i < |found| => found[i]);
      assert a[..] == found;
      SortNewest(a);
      items := a[..];
      SameItems(found, items);
    }
  }

  function PendingIds(requests: map<string, Request>): set<string> {
    set id | id in requests && requests[id].decision == Pending
  }

  /** Exactly the pending requests, and no more items than there are of them. */
  ghost predicate Lists(requests: map<string, Request>, items: seq<Item>) {
    && |items| == |PendingIds(requests)|
    && forall x :: x in items <==> x.id in PendingIds(requests) && x.request == requests[x.id]
  }

  lemma {:induction false} SmallerMap(m: map<string, Request>, n: map<string, Request>)
    requires m.Keys <= n.Keys
    ensures |m| <= |n|
  {
    assert |m| == |m.Keys| && |n| == |n.Keys| && n.Keys == m.Keys + (n.Keys - m.Keys);
  }

  lemma {:induction false} SameItems(s: seq<Item>, t: seq<Item>)
    requires multiset(s) == multiset(t)
    ensures |s| == |t| && forall x :: x in s <==> x in t
  {
    assert |multiset(s)| == |s| && |multiset(t)| == |t|;
    forall x ensures x in s <==> x in t { assert x in multiset(s) <==> x in multiset(t); }
  }
}
