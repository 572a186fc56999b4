/** One request of the stream recorder as a state machine: what appends, prunes, subscriptions and replays do to it,
    and what they guarantee over whole runs. */
module StreamModel {
  import opened Text
  import opened StreamStore
  import opened StreamReplay
  import StreamToken

  /** StreamSubscriber. `sent` is everything put on the channel so far, of which `taken` were received; `start` and
      `overflowed` record the last number issued at subscription and whether an event found the channel full. */
  datatype Subscriber = Subscriber(id: nat, afterSeq: nat, capacity: nat, start: nat, sent: Run, taken: nat, overflowed: bool)

  /** `issued` is every event ever appended, `run` the rows still stored. */
  datatype Stream = Stream(issued: Run, run: Run, subs: seq<Subscriber>, nextId: nat)

  /** dispatchLocked, for one subscriber: never blocks, drops the event when the channel is full. */
  function Deliver(sub: Subscriber, e: Event): Subscriber {
    if e.num <= sub.afterSeq then sub
    else if |sub.sent| - sub.taken < sub.capacity then sub.(sent := sub.sent + [e])
    else sub.(overflowed := true)
  }

  function Dispatch(subs: seq<Subscriber>, e: Event): (r: seq<Subscriber>)
    ensures |r| == |subs| && forall i :: 0 <= i < |subs| ==> r[i] == Deliver(subs[i], e)
  {
    if subs == [] then [] else [Deliver(subs[0], e)] + Dispatch(subs[1..], e)
  }

  /** insertEventLocked up to its prune. */
  function Append(s: Stream, request: string, body: Body, at: int): Stream {
    var e := Event(request, |s.issued| + 1, body, at);
    s.(issued := s.issued + [e], run := s.run + [e], subs := Dispatch(s.subs, e))
  }

  const DEFAULT_CAPACITY := 256

  /** ReplayAndSubscribe after the replay: live events are those after the page's cursor. */
  function Subscribe(s: Stream, after: nat, bufSize: int): Stream {
    var capacity: nat := if bufSize <= 0 then DEFAULT_CAPACITY else bufSize;
    s.(subs := s.subs + [Subscriber(s.nextId, after, capacity, |s.issued|, [], 0, false)], nextId := s.nextId + 1)
  }

  /** The cleanup function: take the subscriber out of the list. */
  function Remove(subs: seq<Subscriber>, id: nat): seq<Subscriber> {
    if subs == [] then [] else if subs[0].id == id then subs[1..] else [subs[0]] + Remove(subs[1..], id)
  }

  function Receive(subs: seq<Subscriber>, id: nat): (r: seq<Subscriber>)
  {
    if subs == [] then []
    else [if subs[0].id == id && subs[0].taken < |subs[0].sent| then subs[0].(taken := subs[0].taken + 1) else subs[0]]
         + Receive(subs[1..], id)
  }

  /** Everything that can happen to a request. A retention pass keeps the newest `keep` of its rows, for any `keep`;
      an append is followed by such a pass. */
  datatype Step =
    | Appended(body: Body, at: int, keep: nat)
    | Pruned(keep: nat)
    | Subscribed(lastSeq: nat, limit: int, bufSize: int)
    | Unsubscribed(id: nat)
    | Received(id: nat)

  function Newest(run: Run, keep: nat): Run
    requires keep <= |run|
  {
    run[|run| - keep..]
  }

  predicate Enabled(s: Stream, step: Step) {
    match step
    case Appended(_, at, keep) =>
      && |s.issued| < MAX_INT64
      && (s.issued != [] ==> s.issued[|s.issued| - 1].createdAt <= at)
      && keep <= |s.run| + 1
    case Pruned(keep) => keep <= |s.run|
    case _ => true
  }

  function Apply(s: Stream, request: string, step: Step): Stream
    requires Enabled(s, step)
  {
    match step
    case Appended(body, at, keep) =>
      var s' := Append(s, request, body, at);
      s'.(run := Newest(s'.run, keep))
    case Pruned(keep) => s.(run := Newest(s.run, keep))
    case Subscribed(lastSeq, limit, bufSize) => Subscribe(s, ReplayFrom(s.run, lastSeq, limit).next, bufSize)
    case Unsubscribed(id) => s.(subs := Remove(s.subs, id))
    case Received(id) => s.(subs := Receive(s.subs, id))
  }

  // ---- the invariant ----

  ghost predicate Good(s: Stream, request: string) {
    && IsLog(s.issued, request)
    && IsSuffix(s.run, s.issued)
    && forall i :: 0 <= i < |s.subs| ==> SubGood(s.subs[i], s.issued) && s.subs[i].id < s.nextId
  }

  /** A subscriber whose channel never overflowed was sent everything issued since it subscribed. */
  ghost predicate SubGood(sub: Subscriber, issued: Run) {
    && sub.start <= |issued|
    && (sub.afterSeq <= sub.start && !sub.overflowed ==> sub.sent == issued[sub.start..])
  }

  /** The rows stored for a request are always a contiguous run that ends at its last issued number. */
  lemma {:induction false} ApplyKeepsGood(s: Stream, request: string, step: Step)
    requires Good(s, request) && Enabled(s, step)
    ensures Good(Apply(s, request, step), request)
    ensures s.issued <= Apply(s, request, step).issued
  {
    match step
    case Appended(body, at, keep) => AppendKeepsGood(s, Event(request, |s.issued| + 1, body, at), keep);
    case Pruned(keep) => NewestSuffix(s.run, s.issued, keep);
    case Subscribed(lastSeq, limit, bufSize) => SubscribeKeepsGood(s, request, ReplayFrom(s.run, lastSeq, limit).next, bufSize);
    case Unsubscribed(id) => RemoveGood(s.subs, id, s.issued, s.nextId);
    case Received(id) => ReceiveGood(s.subs, id, s.issued, s.nextId);
  }

  lemma {:induction false} SubscribeKeepsGood(s: Stream, request: string, after: nat, bufSize: int)
    requires Good(s, request)
    ensures Good(Subscribe(s, after, bufSize), request)
  {
    assert s.issued[|s.issued|..] == [];
  }

  lemma {:induction false} SuffixAppend(run: Run, issued: Run, e: Event)
    requires IsSuffix(run, issued)
    ensures IsSuffix(run + [e], issued + [e])
  {
    SuffixSlice(run, issued);
    var d := |issued| - |run|;
    assert run + [e] == (issued + [e])[d..];
    SliceSuffix(issued + [e], d);
  }

  lemma {:induction false} NewestSuffix(run: Run, issued: Run, keep: nat)
    requires IsSuffix(run, issued) && keep <= |run|
    ensures IsSuffix(Newest(run, keep), issued)
  {
    SliceSuffix(run, |run| - keep);
    SuffixTransitive(Newest(run, keep), run, issued);
  }

  lemma {:induction false} AppendKeepsGood(s: Stream, e: Event, keep: nat)
    requires Good(s, e.request) && e.num == |s.issued| + 1 && keep <= |s.run| + 1
    requires s.issued != [] ==> s.issued[|s.issued| - 1].createdAt <= e.createdAt
    ensures Good(Stream(s.issued + [e], Newest(s.run + [e], keep), Dispatch(s.subs, e), s.nextId), e.request)
  {
    LogAppend(s.issued, e, e.request);
    SuffixAppend(s.run, s.issued, e);
    NewestSuffix(s.run + [e], s.issued + [e], keep);
    DispatchGood(s.subs, s.issued, e, s.nextId);
  }

  lemma {:induction false} LogAppend(issued: Run, e: Event, request: string)
    requires IsLog(issued, request) && e.request == request && e.num == |issued| + 1
    requires issued != [] ==> issued[|issued| - 1].createdAt <= e.createdAt
    ensures IsLog(issued + [e], request)
  {
    if issued != [] { ContiguousAt(issued, request, |issued| - 1); }
    ContiguousAppend(issued, e, request);
  }

  lemma {:induction false} DispatchGood(subs: seq<Subscriber>, issued: Run, e: Event, nextId: nat)
    requires forall i :: 0 <= i < |subs| ==> SubGood(subs[i], issued) && subs[i].id < nextId
    requires e.num == |issued| + 1
    ensures forall i :: 0 <= i < |subs| ==> SubGood(Dispatch(subs, e)[i], issued + [e]) && Dispatch(subs, e)[i].id < nextId
  {
    forall i | 0 <= i < |subs| ensures SubGood(Dispatch(subs, e)[i], issued + [e]) && Dispatch(subs, e)[i].id < nextId {
      DeliverGood(subs[i], issued, e);
    }
  }

  lemma {:induction false} DeliverGood(sub: Subscriber, issued: Run, e: Event)
    requires SubGood(sub, issued) && e.num == |issued| + 1
    ensures SubGood(Deliver(sub, e), issued + [e])
  {
    assert (issued + [e])[sub.start..] == issued[sub.start..] + [e];
  }

  lemma {:induction false} RemoveGood(subs: seq<Subscriber>, id: nat, issued: Run, nextId: nat)
    requires forall i :: 0 <= i < |subs| ==> SubGood(subs[i], issued) && subs[i].id < nextId
    ensures forall i :: 0 <= i < |Remove(subs, id)| ==> SubGood(Remove(subs, id)[i], issued) && Remove(subs, id)[i].id < nextId
  {
    if subs != [] { RemoveGood(subs[1..], id, issued, nextId); }
  }

  lemma {:induction false} ReceiveGood(subs: seq<Subscriber>, id: nat, issued: Run, nextId: nat)
    requires forall i :: 0 <= i < |subs| ==> SubGood(subs[i], issued) && subs[i].id < nextId
    ensures forall i :: 0 <= i < |Receive(subs, id)| ==> SubGood(Receive(subs, id)[i], issued) && Receive(subs, id)[i].id < nextId
  {
    if subs != [] { ReceiveGood(subs[1..], id, issued, nextId); }
  }

  // ---- a consumer that follows resume tokens ----

  /** `log` is what the consumer was told so far, in order. */
  datatype Consumer = Consumer(token: string, cursor: nat, log: seq<Item>)

  /** Replay with the token of the previous page; an outdated last_seq beside it is harmless. */
  function Poll(s: Stream, request: string, c: Consumer, lastSeq: int, limit: int): Consumer {
    match ResolveCursor(request, Query(c.token, lastSeq, limit))
    case Err(_) => c
    case Ok(n) =>
      var reply := ReplyWith(request, ReplayFrom(s.run, n, limit));
      Consumer(reply.resumeToken, reply.page.next, c.log + PageItems(reply.page))
  }

  datatype Action = Recorder(step: Step) | Consume(lastSeq: int, limit: int)

  predicate CanRun(s: Stream, request: string, c: Consumer, actions: seq<Action>)
    decreases |actions|
  {
    actions == [] ||
    match actions[0]
    case Recorder(step) => Enabled(s, step) && CanRun(Apply(s, request, step), request, c, actions[1..])
    case Consume(lastSeq, limit) => lastSeq <= c.cursor && CanRun(s, request, Poll(s, request, c, lastSeq, limit), actions[1..])
  }

  function Run_(s: Stream, request: string, c: Consumer, actions: seq<Action>): (Stream, Consumer)
    requires CanRun(s, request, c, actions)
    decreases |actions|
  {
    if actions == [] then (s, c)
    else
      match actions[0]
      case Recorder(step) => Run_(Apply(s, request, step), request, c, actions[1..])
      case Consume(lastSeq, limit) => Run_(s, request, Poll(s, request, c, lastSeq, limit), actions[1..])
  }

  /** The consumer holds the token of an issued number and was told everything from `origin` up to it. */
  ghost predicate Informed(s: Stream, request: string, c: Consumer, origin: nat) {
    && c.token == StreamToken.Encode(request, c.cursor)
    && c.cursor <= |s.issued| <= MAX_INT64
    && Tiles(c.log, s.issued, origin, c.cursor)
  }

  lemma {:induction false} PollInforms(s: Stream, request: string, c: Consumer, origin: nat, lastSeq: int, limit: int)
    requires Good(s, request) && Trim(request) == request != ""
    requires Informed(s, request, c, origin) && lastSeq <= c.cursor
    ensures Informed(s, request, Poll(s, request, c, lastSeq, limit), origin)
  {
    StreamToken.RoundTrip(request, c.cursor);
    TokenNotBlank(request, c.cursor);
    assert ResolveCursor(request, Query(c.token, lastSeq, limit)) == Ok(c.cursor);
    var page := ReplayFrom(s.run, c.cursor, limit);
    PageTiles(s.issued, s.run, request, c.cursor, limit);
    TilesConcat(c.log, PageItems(page), s.issued, origin, c.cursor, page.next);
  }

  lemma {:induction false} TokenNotBlank(request: string, n: nat)
    requires Trim(request) == request != ""
    ensures Trim(StreamToken.Encode(request, n)) != ""
  {
    var t := StreamToken.Encode(request, n);
    assert t[0] == request[0] && !IsSpace(t[0]);
  }

  lemma {:induction false} StepInforms(s: Stream, request: string, c: Consumer, origin: nat, step: Step)
    requires Good(s, request) && Enabled(s, step) && Informed(s, request, c, origin)
    ensures Good(Apply(s, request, step), request) && Informed(Apply(s, request, step), request, c, origin)
  {
    ApplyKeepsGood(s, request, step);
    TilesGrow(c.log, s.issued, Apply(s, request, step).issued, origin, c.cursor);
  }

  /** No silent loss. Over every interleaving of appends, retention passes, subscriptions and replays, a consumer that
      follows its resume tokens has been told about every number up to its cursor exactly once, in order: the event
      itself, or one missed range that holds it. */
  lemma {:induction false} NoSilentLoss(s: Stream, request: string, c: Consumer, origin: nat, actions: seq<Action>)
    requires Good(s, request) && Trim(request) == request != ""
    requires Informed(s, request, c, origin) && CanRun(s, request, c, actions)
    ensures var (s', c') := Run_(s, request, c, actions);
            Good(s', request) && Informed(s', request, c', origin)
    decreases |actions|
  {
    if actions != [] {
      match actions[0]
      case Recorder(step) =>
        StepInforms(s, request, c, origin, step);
        NoSilentLoss(Apply(s, request, step), request, c, origin, actions[1..]);
      case Consume(lastSeq, limit) =>
        PollInforms(s, request, c, origin, lastSeq, limit);
        NoSilentLoss(s, request, Poll(s, request, c, lastSeq, limit), origin, actions[1..]);
    }
  }

  // ---- replay, then live ----

  predicate CanSteps(s: Stream, request: string, steps: seq<Step>)
    decreases |steps|
  {
    steps == [] || (Enabled(s, steps[0]) && CanSteps(Apply(s, request, steps[0]), request, steps[1..]))
  }

  function Steps(s: Stream, request: string, steps: seq<Step>): Stream
    requires CanSteps(s, request, steps)
    decreases |steps|
  {
    if steps == [] then s else Steps(Apply(s, request, steps[0]), request, steps[1..])
  }

  ghost predicate Reaches(s: Stream, request: string, s': Stream) {
    exists steps :: CanSteps(s, request, steps) && Steps(s, request, steps) == s'
  }

  lemma {:induction false} StepsThen(s: Stream, request: string, steps: seq<Step>, more: seq<Step>)
    requires CanSteps(s, request, steps) && CanSteps(Steps(s, request, steps), request, more)
    ensures CanSteps(s, request, steps + more) && Steps(s, request, steps + more) == Steps(Steps(s, request, steps), request, more)
    decreases |steps|
  {
    if steps == [] {
      assert steps + more == more;
    } else {
      assert (steps + more)[1..] == steps[1..] + more;
      StepsThen(Apply(s, request, steps[0]), request, steps[1..], more);
    }
  }

  lemma {:induction false} ReachesTransitive(s: Stream, request: string, s': Stream, s'': Stream)
    requires Reaches(s, request, s') && Reaches(s', request, s'')
    ensures Reaches(s, request, s'')
  {
    var steps :| CanSteps(s, request, steps) && Steps(s, request, steps) == s';
    var more :| CanSteps(s', request, more) && Steps(s', request, more) == s'';
    StepsThen(s, request, steps, more);
  }

  lemma {:induction false} ReachesInOne(s: Stream, request: string, step: Step)
    requires Enabled(s, step)
    ensures Reaches(s, request, Apply(s, request, step))
  {
    var s' := Apply(s, request, step);
    assert [step][1..] == [] && CanSteps(s', request, []) && Steps(s', request, []) == s';
    assert CanSteps(s, request, [step]) && Steps(s, request, [step]) == s';
  }

  lemma {:induction false} ReachesItself(s: Stream, request: string)
    ensures Reaches(s, request, s)
  {
    assert CanSteps(s, request, []) && Steps(s, request, []) == s;
  }

  /** Whoever holds the id subscribed at `start`, behind the cursor `after`. */
  ghost predicate Known(s: Stream, id: nat, after: nat, start: nat) {
    id < s.nextId && forall i :: 0 <= i < |s.subs| && s.subs[i].id == id ==> s.subs[i].afterSeq == after && s.subs[i].start == start
  }

  lemma {:induction false} RemoveKeeps(subs: seq<Subscriber>, gone: nat, x: Subscriber)
    ensures x in Remove(subs, gone) ==> x in subs
  {
    if subs != [] { RemoveKeeps(subs[1..], gone, x); }
  }

  lemma {:induction false} ReceiveKeeps(subs: seq<Subscriber>, id: nat, i: nat)
    requires i < |Receive(subs, id)|
    ensures |Receive(subs, id)| == |subs|
    ensures var x, y := Receive(subs, id)[i], subs[i]; x.id == y.id && x.afterSeq == y.afterSeq && x.start == y.start
  {
    if i > 0 { ReceiveKeeps(subs[1..], id, i - 1); } else if |subs| > 1 { ReceiveKeeps(subs[1..], id, 0); }
  }

  lemma {:induction false} ApplyKeepsKnown(s: Stream, request: string, step: Step, id: nat, after: nat, start: nat)
    requires Known(s, id, after, start) && Enabled(s, step)
    ensures Known(Apply(s, request, step), id, after, start)
  {
    var s' := Apply(s, request, step);
    forall i | 0 <= i < |s'.subs| && s'.subs[i].id == id ensures s'.subs[i].afterSeq == after && s'.subs[i].start == start {
      match step
      case Unsubscribed(gone) => RemoveKeeps(s.subs, gone, s'.subs[i]);
      case Received(who) => ReceiveKeeps(s.subs, who, i);
      case _ =>
    }
  }

  lemma {:induction false} StepsKeep(s: Stream, request: string, steps: seq<Step>, id: nat, after: nat, start: nat)
    requires Good(s, request) && CanSteps(s, request, steps) && Known(s, id, after, start)
    ensures Good(Steps(s, request, steps), request) && Known(Steps(s, request, steps), id, after, start)
    ensures s.issued <= Steps(s, request, steps).issued
    decreases |steps|
  {
    if steps != [] {
      ApplyKeepsGood(s, request, steps[0]);
      ApplyKeepsKnown(s, request, steps[0], id, after, start);
      StepsKeep(Apply(s, request, steps[0]), request, steps[1..], id, after, start);
    }
  }

  /** Items up to the end of the log and everything issued since tell the whole log. */
  lemma {:induction false} JoinedUp(items: seq<Item>, issued: Run, issued': Run, live: Run, last: nat)
    requires Tiles(items, issued, last, |issued|) && issued <= issued' && live == issued'[|issued|..]
    ensures Tiles(items + Gots(live), issued', last, |issued'|)
  {
    TilesGrow(items, issued, issued', last, |issued|);
    SliceTiles(issued', |issued|, |issued'|);
    assert issued'[|issued|..|issued'|] == live;
    TilesConcat(items, Gots(live), issued', last, |issued|, |issued'|);
  }

  /** Without any item the live events alone do not tell what lies between the cursor and the end of the log. */
  lemma {:induction false} LeftOut(items: seq<Item>, request: string, issued: Run, issued': Run, live: Run, last: nat)
    requires items == [] && last < |issued| && issued <= issued' && live == issued'[|issued|..] && IsLog(issued', request)
    ensures !Tiles(items + Gots(live), issued', last, |issued'|)
  {
    assert items + Gots(live) == Gots(live);
    if live != [] {
      ContiguousAt(issued', request, last);
      ContiguousAt(issued', request, |issued|);
    }
  }

  /** ReplayAndSubscribe without a further page, and any later steps that leave the subscriber in place and never find
      its channel full: the replayed items followed by the live events report every number after the cursor exactly
      once, in order. This holds if and only if some row of the request was still stored, or the cursor was already at
      the last issued number: with no row left the replay has no range to report, and the live events start late. */
  lemma {:induction false} HandoffUnlessFull(s: Stream, request: string, last: nat, limit: int, bufSize: int, steps: seq<Step>, i: nat)
    requires Good(s, request) && last <= |s.issued|
    requires !ReplayFrom(s.run, last, limit).hasMore
    requires CanSteps(Apply(s, request, Subscribed(last, limit, bufSize)), request, steps)
    requires var s' := Steps(Apply(s, request, Subscribed(last, limit, bufSize)), request, steps);
             i < |s'.subs| && s'.subs[i].id == s.nextId && !s'.subs[i].overflowed
    ensures var s' := Steps(Apply(s, request, Subscribed(last, limit, bufSize)), request, steps);
            Tiles(PageItems(ReplayFrom(s.run, last, limit)) + Gots(s'.subs[i].sent), s'.issued, last, |s'.issued|)
            <==> s.run != [] || last == |s.issued|
  {
    var page := ReplayFrom(s.run, last, limit);
    var s1 := Apply(s, request, Subscribed(last, limit, bufSize));
    PageTiles(s.issued, s.run, request, last, limit);
    ApplyKeepsGood(s, request, Subscribed(last, limit, bufSize));
    StepsKeep(s1, request, steps, s.nextId, page.next, |s.issued|);
    var s' := Steps(s1, request, steps);
    assert SubGood(s'.subs[i], s'.issued);
    if s.run != [] || last == |s.issued| {
      JoinedUp(PageItems(page), s.issued, s'.issued, s'.subs[i].sent, last);
    } else {
      LeftOut(PageItems(page), request, s.issued, s'.issued, s'.subs[i].sent, last);
    }
  }
}
