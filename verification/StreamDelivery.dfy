/** What a subscriber is sent, told from the history alone: how many events it has not received yet, when its channel is
    full, and what replay and live events tell together. */
module StreamDelivery {
  import opened Text
  import opened StreamStore
  import opened StreamReplay
  import opened StreamModel

  // ---- states along a run ----

  lemma {:induction false} StepsSplit(s: Stream, request: string, a: seq<Step>, b: seq<Step>)
    requires CanSteps(s, request, a + b)
    ensures CanSteps(s, request, a) && CanSteps(Steps(s, request, a), request, b)
    ensures Steps(s, request, a + b) == Steps(Steps(s, request, a), request, b)
    decreases |a|
  {
    if a == [] {
      assert a + b == b;
    } else {
      assert (a + b)[1..] == a[1..] + b && (a + b)[0] == a[0];
      StepsSplit(Apply(s, request, a[0]), request, a[1..], b);
    }
  }

  lemma {:induction false} OneStep(s: Stream, request: string, step: Step)
    requires CanSteps(s, request, [step])
    ensures Enabled(s, step) && Steps(s, request, [step]) == Apply(s, request, step)
  {
    var rest := [step][1..];
    assert rest == [];
    assert Steps(Apply(s, request, step), request, rest) == Apply(s, request, step);
  }

  /** The state after `n + 1` steps is one step further than the state after `n`. */
  lemma {:induction false} StepsAt(s: Stream, request: string, steps: seq<Step>, n: nat)
    requires CanSteps(s, request, steps) && n < |steps|
    ensures CanSteps(s, request, steps[..n]) && CanSteps(s, request, steps[..n + 1])
    ensures Enabled(Steps(s, request, steps[..n]), steps[n])
    ensures Steps(s, request, steps[..n + 1]) == Apply(Steps(s, request, steps[..n]), request, steps[n])
  {
    assert steps == steps[..n + 1] + steps[n + 1..] && steps[..n + 1] == steps[..n] + [steps[n]];
    StepsSplit(s, request, steps[..n + 1], steps[n + 1..]);
    StepsSplit(s, request, steps[..n], [steps[n]]);
    OneStep(Steps(s, request, steps[..n]), request, steps[n]);
  }

  // ---- the history of a channel ----

  /** How many events the first `n` steps append. */
  function Appends(steps: seq<Step>, n: nat): nat
    requires n <= |steps|
  {
    if n == 0 then 0 else Appends(steps, n - 1) + if steps[n - 1].Appended? then 1 else 0
  }

  /** A subscription: who it is for, the numbers issued before it, its cursor and its buffer. */
  datatype Ticket = Ticket(id: nat, issued: nat, after: nat, capacity: nat)

  /** Step `k` appends an event that lies behind the cursor. */
  predicate IsForIt(t: Ticket, steps: seq<Step>, k: nat)
    requires k < |steps|
  {
    steps[k].Appended? && t.issued + Appends(steps, k) + 1 > t.after
  }

  /** The events in the channel after `n` steps: each event for it comes in while there is room, each receive takes one out. */
  function Unread(t: Ticket, steps: seq<Step>, n: nat): nat
    requires n <= |steps|
  {
    if n == 0 then 0
    else
      var u := Unread(t, steps, n - 1);
      if IsForIt(t, steps, n - 1) then (if u < t.capacity then u + 1 else u)
      else if steps[n - 1] == Received(t.id) && u > 0 then u - 1
      else u
  }

  /** An event for it came while the channel was full. */
  ghost predicate Overran(t: Ticket, steps: seq<Step>, n: nat)
    requires n <= |steps|
  {
    exists k :: 0 <= k < n && IsForIt(t, steps, k) && Unread(t, steps, k) == t.capacity
  }

  lemma {:induction false} UnreadFits(t: Ticket, steps: seq<Step>, n: nat)
    requires n <= |steps|
    ensures Unread(t, steps, n) <= t.capacity
  {
    if n > 0 { UnreadFits(t, steps, n - 1); }
  }

  lemma {:induction false} OverranNext(t: Ticket, steps: seq<Step>, n: nat)
    requires n < |steps|
    ensures Overran(t, steps, n + 1) <==> Overran(t, steps, n) || (IsForIt(t, steps, n) && Unread(t, steps, n) == t.capacity)
  {
    if Overran(t, steps, n) {
      var k :| 0 <= k < n && IsForIt(t, steps, k) && Unread(t, steps, k) == t.capacity;
      assert k < n + 1;
    }
  }

  // ---- the subscriber of the state machine follows the history ----

  predicate Matches(sub: Subscriber, t: Ticket, unread: nat, overran: bool) {
    && sub.afterSeq == t.after && sub.capacity == t.capacity && sub.start == t.issued
    && sub.taken <= |sub.sent| && |sub.sent| - sub.taken == unread && sub.overflowed == overran
  }

  /** Whoever holds the id matches. */
  ghost predicate Tracked(s: Stream, t: Ticket, unread: nat, overran: bool) {
    t.id < s.nextId && forall x {:trigger Matches(x, t, unread, overran)} :: x in s.subs && x.id == t.id ==> Matches(x, t, unread, overran)
  }

  lemma {:induction false} AppendTracks(s: Stream, e: Event, t: Ticket, unread: nat, overran: bool)
    requires Tracked(s, t, unread, overran) && unread <= t.capacity
    ensures var full := unread == t.capacity;
            var more := e.num > t.after;
            Tracked(s.(subs := Dispatch(s.subs, e)), t, if more && !full then unread + 1 else unread, overran || (more && full))
  {
    var subs := Dispatch(s.subs, e);
    var u, o := if e.num > t.after && unread != t.capacity then unread + 1 else unread, overran || (e.num > t.after && unread == t.capacity);
    forall x | x in subs && x.id == t.id ensures Matches(x, t, u, o) {
      var i :| 0 <= i < |subs| && subs[i] == x;
      assert s.subs[i] in s.subs && x == Deliver(s.subs[i], e);
      assert Matches(s.subs[i], t, unread, overran);
    }
  }

  lemma {:induction false} ReceiveAt(subs: seq<Subscriber>, id: nat, i: nat)
    requires i < |Receive(subs, id)|
    ensures |Receive(subs, id)| == |subs|
    ensures Receive(subs, id)[i] == if subs[i].id == id && subs[i].taken < |subs[i].sent| then subs[i].(taken := subs[i].taken + 1) else subs[i]
  {
    if i > 0 { ReceiveAt(subs[1..], id, i - 1); } else if |subs| > 1 { ReceiveAt(subs[1..], id, 0); }
  }

  lemma {:induction false} ReceiveTracks(s: Stream, who: nat, t: Ticket, unread: nat, overran: bool)
    requires Tracked(s, t, unread, overran)
    ensures Tracked(s.(subs := Receive(s.subs, who)), t, if who == t.id && unread > 0 then unread - 1 else unread, overran)
  {
    var subs := Receive(s.subs, who);
    var u := if who == t.id && unread > 0 then unread - 1 else unread;
    forall x | x in subs && x.id == t.id ensures Matches(x, t, u, overran) {
      var i :| 0 <= i < |subs| && subs[i] == x;
      ReceiveAt(s.subs, who, i);
      assert s.subs[i] in s.subs;
      assert Matches(s.subs[i], t, unread, overran);
    }
  }

  lemma {:induction false} OthersTrack(s: Stream, request: string, step: Step, t: Ticket, unread: nat, overran: bool)
    requires Tracked(s, t, unread, overran) && Enabled(s, step) && !step.Appended? && !step.Received?
    ensures Tracked(Apply(s, request, step), t, unread, overran)
  {
    var s' := Apply(s, request, step);
    forall x | x in s'.subs && x.id == t.id ensures Matches(x, t, unread, overran) {
      if step.Unsubscribed? { RemoveKeeps(s.subs, step.id, x); }
      assert x in s.subs;
    }
  }

  lemma {:induction false} RunTracks(s: Stream, request: string, t: Ticket, steps: seq<Step>, n: nat)
    requires CanSteps(s, request, steps) && n <= |steps| && Tracked(s, t, 0, false) && |s.issued| == t.issued
    ensures CanSteps(s, request, steps[..n]) && |Steps(s, request, steps[..n]).issued| == t.issued + Appends(steps, n)
    ensures Tracked(Steps(s, request, steps[..n]), t, Unread(t, steps, n), Overran(t, steps, n))
  {
    if n == 0 {
      assert steps[..0] == [];
    } else {
      RunTracks(s, request, t, steps, n - 1);
      StepsAt(s, request, steps, n - 1);
      UnreadFits(t, steps, n - 1);
      OverranNext(t, steps, n - 1);
      StepTracks(Steps(s, request, steps[..n - 1]), request, t, steps, n - 1);
    }
  }

  lemma {:induction false} StepTracks(s: Stream, request: string, t: Ticket, steps: seq<Step>, k: nat)
    requires k < |steps| && Enabled(s, steps[k]) && |s.issued| == t.issued + Appends(steps, k)
    requires Tracked(s, t, Unread(t, steps, k), Overran(t, steps, k)) && Unread(t, steps, k) <= t.capacity
    requires Overran(t, steps, k + 1) <==> Overran(t, steps, k) || (IsForIt(t, steps, k) && Unread(t, steps, k) == t.capacity)
    ensures var s' := Apply(s, request, steps[k]);
            |s'.issued| == t.issued + Appends(steps, k + 1) && Tracked(s', t, Unread(t, steps, k + 1), Overran(t, steps, k + 1))
  {
    var u, o := Unread(t, steps, k), Overran(t, steps, k);
    match steps[k]
    case Appended(body, at, keep) => AppendTracks(s, Event(request, |s.issued| + 1, body, at), t, u, o);
    case Received(who) => ReceiveTracks(s, who, t, u, o);
    case _ => OthersTrack(s, request, steps[k], t, u, o);
  }

  // ---- what follows for whoever subscribes ----

  /** The ticket of a subscription; the buffer holds 256 events unless another size was asked for. */
  function TicketOf(s: Stream, last: nat, limit: int, bufSize: int): Ticket {
    Ticket(s.nextId, |s.issued|, ReplayFrom(s.run, last, limit).next, if bufSize <= 0 then 256 else bufSize)
  }

  lemma {:induction false} NewIsTracked(s: Stream, request: string, last: nat, limit: int, bufSize: int)
    requires Good(s, request)
    ensures Tracked(Apply(s, request, Subscribed(last, limit, bufSize)), TicketOf(s, last, limit, bufSize), 0, false)
  {
    var s' := Apply(s, request, Subscribed(last, limit, bufSize));
    var t := TicketOf(s, last, limit, bufSize);
    OldIds(s, request);
    forall x | x in s'.subs && x.id == t.id ensures Matches(x, t, 0, false) { assert x !in s.subs; }
  }

  lemma {:induction false} OldIds(s: Stream, request: string)
    requires Good(s, request)
    ensures forall x :: x in s.subs ==> x.id < s.nextId
  {}

  /** Over every run from its subscription, a subscriber has lost an event if and only if some event behind its cursor was
      appended while the whole buffer was sent and not yet received. */
  lemma {:induction false} OverflowIff(s: Stream, request: string, last: nat, limit: int, bufSize: int, steps: seq<Step>, i: nat)
    requires Good(s, request) && CanSteps(Apply(s, request, Subscribed(last, limit, bufSize)), request, steps)
    requires var s' := Steps(Apply(s, request, Subscribed(last, limit, bufSize)), request, steps); i < |s'.subs| && s'.subs[i].id == s.nextId
    ensures var s' := Steps(Apply(s, request, Subscribed(last, limit, bufSize)), request, steps);
            s'.subs[i].overflowed <==> Overran(TicketOf(s, last, limit, bufSize), steps, |steps|)
  {
    var t, s1 := TicketOf(s, last, limit, bufSize), Apply(s, request, Subscribed(last, limit, bufSize));
    NewIsTracked(s, request, last, limit, bufSize);
    RunTracks(s1, request, t, steps, |steps|);
    assert steps[..|steps|] == steps;
    var s' := Steps(s1, request, steps);
    assert s'.subs[i] in s'.subs;
    assert Matches(s'.subs[i], t, Unread(t, steps, |steps|), Overran(t, steps, |steps|));
  }

  /** Replay, then live. For a last page, and a history in which the buffer never overran, the replayed items followed by the
      live events tell every number after the cursor exactly once, in order, if and only if some row of the request was
      still stored, or the cursor was already at the last issued number. */
  lemma {:induction false} Handoff(s: Stream, request: string, last: nat, limit: int, bufSize: int, steps: seq<Step>, i: nat)
    requires Good(s, request) && last <= |s.issued| && !ReplayFrom(s.run, last, limit).hasMore
    requires CanSteps(Apply(s, request, Subscribed(last, limit, bufSize)), request, steps)
    requires !Overran(TicketOf(s, last, limit, bufSize), steps, |steps|)
    requires var s' := Steps(Apply(s, request, Subscribed(last, limit, bufSize)), request, steps); i < |s'.subs| && s'.subs[i].id == s.nextId
    ensures var s' := Steps(Apply(s, request, Subscribed(last, limit, bufSize)), request, steps);
            Tiles(PageItems(ReplayFrom(s.run, last, limit)) + Gots(s'.subs[i].sent), s'.issued, last, |s'.issued|)
            <==> s.run != [] || last == |s.issued|
  {
    OverflowIff(s, request, last, limit, bufSize, steps, i);
    HandoffUnlessFull(s, request, last, limit, bufSize, steps, i);
  }

  // ---- a client that keeps up ----

  /** Between any two events the client receives. */
  ghost predicate Prompt(steps: seq<Step>, id: nat) {
    forall j, k :: 0 <= j < k < |steps| && steps[j].Appended? && steps[k].Appended? ==> exists m :: j < m < k && steps[m] == Received(id)
  }

  /** Since the last append, the client has received. */
  ghost predicate CaughtUp(steps: seq<Step>, n: nat, id: nat)
    requires n <= |steps|
  {
    forall j :: 0 <= j < n && steps[j].Appended? ==> exists m :: j < m < n && steps[m] == Received(id)
  }

  /** Then there is never more than one event in the channel, and none when the next one comes. */
  lemma {:induction false} PromptUnread(t: Ticket, steps: seq<Step>, n: nat)
    requires Prompt(steps, t.id) && n <= |steps|
    ensures Unread(t, steps, n) <= 1 && (CaughtUp(steps, n, t.id) ==> Unread(t, steps, n) == 0)
  {
    if n > 0 {
      PromptUnread(t, steps, n - 1);
      if steps[n - 1].Appended? {
        assert CaughtUp(steps, n - 1, t.id);
        assert CaughtUp(steps, n, t.id) ==> false by { StillBehind(steps, n, t.id); }
      } else if steps[n - 1] != Received(t.id) {
        SameAsBefore(steps, n, t.id);
      }
    }
  }

  lemma {:induction false} StillBehind(steps: seq<Step>, n: nat, id: nat)
    requires 0 < n <= |steps| && steps[n - 1].Appended?
    ensures !CaughtUp(steps, n, id)
  {}

  lemma {:induction false} SameAsBefore(steps: seq<Step>, n: nat, id: nat)
    requires 0 < n <= |steps| && !steps[n - 1].Appended? && steps[n - 1] != Received(id)
    ensures CaughtUp(steps, n, id) ==> CaughtUp(steps, n - 1, id)
  {
    if CaughtUp(steps, n, id) {
      forall j | 0 <= j < n - 1 && steps[j].Appended? ensures exists m :: j < m < n - 1 && steps[m] == Received(id) {
        var m :| j < m < n && steps[m] == Received(id);
        assert m < n - 1;
      }
    }
  }

  lemma {:induction false} PromptNeverOverruns(t: Ticket, steps: seq<Step>)
    requires Prompt(steps, t.id) && t.capacity >= 1
    ensures !Overran(t, steps, |steps|)
  {
    forall k | 0 <= k < |steps| && IsForIt(t, steps, k) ensures Unread(t, steps, k) != t.capacity {
      assert CaughtUp(steps, k, t.id);
      PromptUnread(t, steps, k);
    }
  }

  /** A client that receives each event before the next one comes is sent everything issued since it subscribed, however
      much that is and however small its buffer. */
  lemma {:induction false} PromptClientMissesNothing(s: Stream, request: string, last: nat, limit: int, bufSize: int, steps: seq<Step>, i: nat)
    requires Good(s, request) && CanSteps(Apply(s, request, Subscribed(last, limit, bufSize)), request, steps)
    requires ReplayFrom(s.run, last, limit).next <= |s.issued| && Prompt(steps, s.nextId)
    requires var s' := Steps(Apply(s, request, Subscribed(last, limit, bufSize)), request, steps); i < |s'.subs| && s'.subs[i].id == s.nextId
    ensures var s' := Steps(Apply(s, request, Subscribed(last, limit, bufSize)), request, steps);
            |s.issued| <= |s'.issued| && s'.subs[i].sent == s'.issued[|s.issued|..]
  {
    var t, s1 := TicketOf(s, last, limit, bufSize), Apply(s, request, Subscribed(last, limit, bufSize));
    PromptNeverOverruns(t, steps);
    OverflowIff(s, request, last, limit, bufSize, steps, i);
    ApplyKeepsGood(s, request, Subscribed(last, limit, bufSize));
    NewIsKnown(s, request, last, limit, bufSize);
    StepsKeep(s1, request, steps, s.nextId, t.after, |s.issued|);
    var s' := Steps(s1, request, steps);
    assert SubGood(s'.subs[i], s'.issued);
  }

  lemma {:induction false} NewIsKnown(s: Stream, request: string, last: nat, limit: int, bufSize: int)
    requires Good(s, request)
    ensures Known(Apply(s, request, Subscribed(last, limit, bufSize)), s.nextId, ReplayFrom(s.run, last, limit).next, |s.issued|)
  {}
}
