/** What became of an approval request, told from its history alone: who voted for it, who denied it, and when. */
module ApprovalHistory {
  import opened Text
  import opened ApprovalQueue

  // ---- what a history says ----

  /** Somebody votes before the request is overdue. */
  predicate InTime(e: Event, expiresAt: int) {
    e.Voted? && Trim(e.who) != "" && e.now <= expiresAt
  }

  predicate Yes(e: Event, expiresAt: int) {
    InTime(e, expiresAt) && e.answer == Approve
  }

  predicate No(e: Event, expiresAt: int) {
    InTime(e, expiresAt) && e.answer == Deny
  }

  /** Somebody votes, or the queue is cleaned up, once the request is overdue. */
  predicate Late(e: Event, expiresAt: int) {
    (e.Voted? ==> Trim(e.who) != "") && e.now > expiresAt
  }

  /** The actors who voted for the request in time, whatever case they are spelled in. */
  ghost function Voices(events: seq<Event>, expiresAt: int): set<string> {
    set i | 0 <= i < |events| && Yes(events[i], expiresAt) :: Lower(Trim(events[i].who))
  }

  /** No denial in time, nothing too late, and fewer voices than are required. */
  ghost predicate Open(events: seq<Event>, expiresAt: int, required: int) {
    && (forall i :: 0 <= i < |events| ==> !No(events[i], expiresAt) && !Late(events[i], expiresAt))
    && |Voices(events, expiresAt)| < required
  }

  // ---- the approvals on record ----

  ghost function Folds(names: seq<string>): set<string> {
    set i | 0 <= i < |names| :: Fold(names[i])
  }

  lemma {:induction false} FoldsMore(names: seq<string>, name: string)
    ensures Folds(names + [name]) == Folds(names) + {Fold(name)}
  {
    var all := names + [name];
    forall f | f in Folds(names) + {Fold(name)} ensures f in Folds(all) {
      if f in Folds(names) {
        var i :| 0 <= i < |names| && f == Fold(names[i]);
        assert all[i] == names[i];
      } else {
        assert all[|names|] == name;
      }
    }
  }

  lemma {:induction false} DistinctCount(names: seq<string>)
    requires DistinctActors(names)
    ensures |Folds(names)| == |names|
  {
    if names != [] {
      var front, last := names[..|names| - 1], names[|names| - 1];
      DistinctCount(front);
      assert names == front + [last];
      FoldsMore(front, last);
      assert Fold(last) !in Folds(front);
    }
  }

  lemma {:induction false} VoicesMore(events: seq<Event>, e: Event, expiresAt: int)
    ensures Voices(events + [e], expiresAt) == Voices(events, expiresAt) + if Yes(e, expiresAt) then {Lower(Trim(e.who))} else {}
  {
    var all, more := events + [e], Voices(events, expiresAt) + if Yes(e, expiresAt) then {Lower(Trim(e.who))} else {};
    assert all[|events|] == e;
    forall f | f in more ensures f in Voices(all, expiresAt) {
      if f in Voices(events, expiresAt) {
        var i :| 0 <= i < |events| && Yes(events[i], expiresAt) && f == Lower(Trim(events[i].who));
        assert all[i] == events[i];
      } else {
        assert Yes(all[|events|], expiresAt);
      }
    }
  }

  lemma {:induction false} OpenMore(events: seq<Event>, e: Event, expiresAt: int, required: int)
    ensures Open(events + [e], expiresAt, required) <==>
            Open(events, expiresAt, required) && !No(e, expiresAt) && !Late(e, expiresAt) && |Voices(events + [e], expiresAt)| < required
  {
    var all := events + [e];
    assert all[|events|] == e && forall i :: 0 <= i < |events| ==> all[i] == events[i];
    VoicesMore(events, e, expiresAt);
    Grows(Voices(events, expiresAt), Voices(all, expiresAt));
  }

  lemma {:induction false} Grows(a: set<string>, b: set<string>)
    requires a <= b
    ensures |a| <= |b|
  {
    assert b == a + (b - a);
  }

  lemma {:induction false} OnRecordIff(r: Request, actor: string)
    ensures HasApproved(r, actor) <==> Fold(actor) in Folds(r.approvals)
  {}

  /** The voices once this one is heard. */
  ghost function Heard(voices: set<string>, e: Event, expiresAt: int): set<string> {
    if Yes(e, expiresAt) then voices + {Lower(Trim(e.who))} else voices
  }

  lemma {:induction false} VoiceHeard(r: Request, e: Event)
    requires r.decision == Pending && Yes(e, r.expiresAt)
    ensures Folds(Apply(r, e).approvals) == Heard(Folds(r.approvals), e, r.expiresAt)
  {
    var actor := Trim(e.who);
    OnRecordIff(r, actor);
    if !HasApproved(r, actor) { FoldsMore(r.approvals, actor); }
  }

  /** A pending request after one event. */
  lemma {:induction false} OneEvent(r: Request, e: Event)
    requires r.decision == Pending && Good(r)
    ensures var r', closed := Apply(r, e), No(e, r.expiresAt) || Late(e, r.expiresAt);
            && (closed ==> r'.decision == Outcome(e, r.expiresAt))
            && (!closed ==> Folds(r'.approvals) == Heard(Folds(r.approvals), e, r.expiresAt))
            && (!closed ==> r'.decision == if |Folds(r'.approvals)| < Quorum(r) then Pending else Approved)
            && (r'.decision in {Denied, Approved} ==> InTime(e, r.expiresAt) && r'.decidedBy == Trim(e.who))
  {
    var r' := Apply(r, e);
    if e.Voted? { VoteKeepsGood(r, e.answer, e.who, e.now); }
    if Yes(e, r.expiresAt) { VoiceHeard(r, e); }
    DistinctCount(r'.approvals);
  }

  lemma {:induction false} PendingIffStep(r: Request, front: seq<Event>, e: Event)
    requires IsFresh(r)
    requires After(r, front).decision == Pending <==> Open(front, r.expiresAt, Quorum(r))
    requires After(r, front).decision == Pending ==> Folds(After(r, front).approvals) == Voices(front, r.expiresAt)
    ensures After(r, front + [e]) == Apply(After(r, front), e)
    ensures After(r, front + [e]).decision == Pending <==> Open(front + [e], r.expiresAt, Quorum(r))
    ensures After(r, front + [e]).decision == Pending ==> Folds(After(r, front + [e]).approvals) == Voices(front + [e], r.expiresAt)
  {
    assert (front + [e])[..|front|] == front;
    var before := After(r, front);
    ApprovedHasQuorum(r, front);
    OpenMore(front, e, r.expiresAt, Quorum(r));
    VoicesMore(front, e, r.expiresAt);
    if before.decision == Pending { OneEvent(before, e); }
  }

  /** A request is pending if and only if nobody has denied it in time, it has not been found overdue, and fewer actors than
      it needs have voted for it in time; they are the ones on record. */
  lemma {:induction false} PendingIff(r: Request, events: seq<Event>)
    requires IsFresh(r)
    ensures After(r, events).decision == Pending <==> Open(events, r.expiresAt, Quorum(r))
    ensures After(r, events).decision == Pending ==> Folds(After(r, events).approvals) == Voices(events, r.expiresAt)
  {
    if events != [] {
      var front, e := events[..|events| - 1], events[|events| - 1];
      assert events == front + [e];
      PendingIff(r, front);
      PendingIffStep(r, front, e);
    } else {
      assert Folds([]) == {} && Voices([], r.expiresAt) == {};
    }
  }

  // ---- how it was decided ----

  /** The event that decides a request which was open until then. */
  ghost predicate Decides(events: seq<Event>, i: nat, expiresAt: int, required: int) {
    && i < |events| && Open(events[..i], expiresAt, required)
    && (No(events[i], expiresAt) || Late(events[i], expiresAt) || |Voices(events[..i + 1], expiresAt)| >= required)
  }

  /** What the deciding event makes of it. */
  function Outcome(e: Event, expiresAt: int): Decision {
    if No(e, expiresAt) then Denied else if Late(e, expiresAt) then Expired else Approved
  }

  lemma {:induction false} DecidedNow(r: Request, front: seq<Event>, e: Event)
    requires IsFresh(r) && Open(front, r.expiresAt, Quorum(r))
    requires No(e, r.expiresAt) || Late(e, r.expiresAt) || |Voices(front + [e], r.expiresAt)| >= Quorum(r)
    ensures After(r, front + [e]).decision == Outcome(e, r.expiresAt)
    ensures InTime(e, r.expiresAt) ==> After(r, front + [e]).decidedBy == Trim(e.who)
  {
    PendingIff(r, front);
    PendingIffStep(r, front, e);
    ApprovedHasQuorum(r, front);
    OpenMore(front, e, r.expiresAt, Quorum(r));
    OneEvent(After(r, front), e);
  }

  lemma {:induction false} StaysDecided(r: Request, events: seq<Event>, n: nat)
    requires n <= |events| && After(r, events[..n]).decision != Pending
    ensures After(r, events) == After(r, events[..n])
  {
    assert events == events[..n] + events[n..];
    AfterMore(r, events[..n], events[n..]);
    DecidedForever(After(r, events[..n]), events[n..]);
  }

  lemma {:induction false} DecidedBy(r: Request, events: seq<Event>, i: nat)
    requires IsFresh(r) && Decides(events, i, r.expiresAt, Quorum(r))
    ensures After(r, events).decision == Outcome(events[i], r.expiresAt)
    ensures InTime(events[i], r.expiresAt) ==> After(r, events).decidedBy == Trim(events[i].who)
  {
    assert events[..i + 1] == events[..i] + [events[i]];
    DecidedNow(r, events[..i], events[i]);
    StaysDecided(r, events, i + 1);
  }

  lemma {:induction false} SomethingDecided(r: Request, events: seq<Event>) returns (i: nat)
    requires IsFresh(r) && After(r, events).decision != Pending
    ensures Decides(events, i, r.expiresAt, Quorum(r))
  {
    var front, e := events[..|events| - 1], events[|events| - 1];
    if After(r, front).decision == Pending {
      i := |front|;
      PendingIff(r, front);
      PendingIff(r, events);
      assert events == front + [e] && events[..i + 1] == events;
      OpenMore(front, e, r.expiresAt, Quorum(r));
    } else {
      i := SomethingDecided(r, front);
      assert front[..i] == events[..i] && front[..i + 1] == events[..i + 1];
    }
  }

  /** Over every history: a request is denied, or expired, or approved, if and only if the event that closed it was a denial
      in time, or came too late, or was the vote that completed the voices it needs. */
  lemma {:induction false} DecidedIff(r: Request, events: seq<Event>, d: Decision)
    requires IsFresh(r) && d != Pending
    ensures After(r, events).decision == d <==> exists i: nat :: Decides(events, i, r.expiresAt, Quorum(r)) && Outcome(events[i], r.expiresAt) == d
  {
    if After(r, events).decision == d {
      var i := SomethingDecided(r, events);
      DecidedBy(r, events, i);
    }
    forall i: nat | Decides(events, i, r.expiresAt, Quorum(r)) ensures After(r, events).decision == Outcome(events[i], r.expiresAt) {
      DecidedBy(r, events, i);
    }
  }

  /** A denial in time of a pending request is final: whatever happens afterwards, it stays denied, by that actor. */
  lemma {:induction false} DenialIsFinal(r: Request, before: seq<Event>, who: string, now: int, later: seq<Event>)
    requires IsFresh(r) && After(r, before).decision == Pending && Trim(who) != "" && now <= r.expiresAt
    ensures var r' := After(r, before + [Voted(Deny, who, now)] + later);
            r'.decision == Denied && r'.decidedBy == Trim(who) && r'.approvals == After(r, before).approvals
  {
    var denial := Voted(Deny, who, now);
    var events := before + [denial] + later;
    ApprovedHasQuorum(r, before);
    assert (before + [denial])[..|before|] == before && events[..|before| + 1] == before + [denial];
    StaysDecided(r, events, |before| + 1);
  }

  lemma {:induction false} DeniedAt(r: Request, events: seq<Event>, i: nat)
    requires IsFresh(r) && i < |events| && After(r, events[..i]).decision == Pending && No(events[i], r.expiresAt)
    ensures After(r, events).decision == Denied
  {
    assert events == events[..i] + [Voted(Deny, events[i].who, events[i].now)] + events[i + 1..];
    DenialIsFinal(r, events[..i], events[i].who, events[i].now, events[i + 1..]);
  }

  /** A request that comes out approved was not denied in time while it was pending. */
  lemma {:induction false} ApprovedWasNotDenied(r: Request, events: seq<Event>, i: nat)
    requires IsFresh(r) && After(r, events).decision == Approved && i < |events| && After(r, events[..i]).decision == Pending
    ensures !(events[i].Voted? && events[i].answer == Deny && Trim(events[i].who) != "" && events[i].now <= r.expiresAt)
  {
    if No(events[i], r.expiresAt) { DeniedAt(r, events, i); }
  }

  // ---- on the whole queue ----

  lemma {:induction false} RunMore(l: Limits, requests: Requests, calls: seq<Call>, more: seq<Call>)
    ensures Run(l, requests, calls + more) == Run(l, Run(l, requests, calls), more)
  {
    if more == [] {
      assert calls + more == calls;
    } else {
      var front := more[..|more| - 1];
      assert (calls + more)[..|calls + more| - 1] == calls + front;
      RunMore(l, requests, calls, front);
    }
  }

  /** Whatever else happens in the queue, a request that was denied while it was pending is denied as long as it is kept. */
  lemma {:induction false} DeniedInRun(l: Limits, requests: Requests, id: string, who: string, now: int, later: seq<Call>)
    requires id in requests && requests[id].decision == Pending && Trim(who) != "" && now <= requests[id].expiresAt && NotSubmitted(later, id)
    ensures var end := Run(l, requests, [DecideCall(id, Deny, who, now)] + later);
            id in end ==> end[id].decision == Denied && end[id].decidedBy == Trim(who)
  {
    var call := DecideCall(id, Deny, who, now);
    RunMore(l, requests, [call], later);
    assert [call][..0] == [];
    var after := Run(l, requests, [call]);
    RunIsAfter(l, after, later, id);
    DecidedForever(after[id], AllMeant(later, id));
  }

  /** Cleaning up: a request stays if and only if it is pending and not overdue, or was created in the last 24 hours; it is
      changed only if it was pending and is overdue. */
  lemma {:induction false} EvictedIff(requests: Requests, now: int, id: string)
    requires id in requests
    ensures var r, kept := requests[id], Evicted(requests, now);
            && (id in kept <==> (r.decision == Pending && now <= r.expiresAt) || r.createdAt >= now - 86_400_000_000_000)
            && (id in kept ==> kept[id] == if r.decision == Pending && now > r.expiresAt then r.(decision := Expired) else r)
  {
    assert DAY == 86_400_000_000_000;
  }

  /** Two names are the same actor if and only if they agree up to white space around them and the case of letters. */
  lemma {:induction false} SameActorIff(a: string, b: string)
    ensures Fold(a) == Fold(b) <==>
            && |Trim(a)| == |Trim(b)|
            && forall i :: 0 <= i < |Trim(a)| ==> SameLetter(Trim(a)[i], Trim(b)[i])
  {
    var s, t := Trim(a), Trim(b);
    if |s| == |t| {
      forall i | 0 <= i < |s| ensures Lower(s)[i] == Lower(t)[i] <==> SameLetter(s[i], t[i]) {}
    }
  }

  predicate SameLetter(c: char, d: char) {
    c == d || ('A' <= c <= 'Z' && d as int == c as int + 32) || ('A' <= d <= 'Z' && c as int == d as int + 32)
  }
}
