/** The stream recorder itself: its in-memory maps, its event table and the loops that update them. Every operation is
    proved to be a step of the per-request state machine in StreamModel. */
module StreamRecorder {
  import opened Text
  import opened StreamStore
  import opened StreamReplay
  import opened StreamModel
  import opened ReorderBuffer
  import Ranking

  datatype StreamState = StreamState(nextSeq: nat, buffer: Buffer)

  class Recorder {
    const retention: Retention
    var table: Table
    var states: map<string, StreamState>
    var subs: map<string, seq<Subscriber>>
    // Identities handed to subscribers, and everything ever appended; the code keeps neither.
    var subIds: map<string, nat>
    ghost var issued: map<string, Run>
    ghost var clock: int

    ghost function IssuedOf(request: string): Run reads this`issued {
      if request in issued then issued[request] else []
    }

    function SubsOf(request: string): seq<Subscriber> reads this`subs {
      if request in subs then subs[request] else []
    }

    function IdOf(request: string): nat reads this`subIds {
      if request in subIds then subIds[request] else 0
    }

    function BufferOf(request: string): Buffer reads this`states {
      if request in states then states[request].buffer else EMPTY
    }

    /** What the state machine sees of one request. */
    ghost function View(request: string): Stream
      reads this`issued, this`table, this`subs, this`subIds
    {
      Stream(IssuedOf(request), RunOf(table, request), SubsOf(request), IdOf(request))
    }

    ghost predicate CounterGood(request: string) reads this`states, this`issued, this`clock {
      && (request in states ==> states[request].nextSeq == |IssuedOf(request)| + 1 && states[request].buffer.next >= 1)
      && (request !in states ==> IssuedOf(request) == [])
      && (IssuedOf(request) != [] ==> IssuedOf(request)[|IssuedOf(request)| - 1].createdAt <= clock)
    }

    ghost predicate Valid() reads this {
      && Active(retention)
      && StreamStore.Valid(table)
      && (forall r {:trigger Good(View(r), r)} :: Good(View(r), r))
      && (forall r :: CounterGood(r))
    }

    /** NewStreamRecorder on an empty database. */
    constructor (cfg: Retention, ghost since: int)
      ensures Valid() && retention == Normalize(cfg) && clock == since
      ensures forall r :: View(r) == Stream([], [], [], 0)
    {
      retention := Normalize(cfg);
      table, states, subs, subIds, issued := map[], map[], map[], map[], map[];
      clock := since;
    }

    /** NewStreamRecorder on the rows that an earlier one left: nothing but the table survives, and it is pruned at once. */
    constructor Open(cfg: Retention, rows: Table, now: int)
      requires StreamStore.Valid(rows) && Positive(rows)
      ensures retention == Normalize(cfg) && states == map[] && subs == map[]
      ensures Passed(rows, table, retention, now)
    {
      retention := Normalize(cfg);
      table, states, subs, subIds, issued := rows, map[], map[], map[], map[];
      new;
      PruneLocked(now);
    }

    /** The `start` of a subscriber, the last number issued, for the state machine's bookkeeping. */
    function NextSeq(request: string): nat reads this`states {
      if request in states then states[request].nextSeq else 1
    }

    // ---- pruneLocked ----

    /** SELECT ... ORDER BY created_at, request_id, seq LIMIT 1 over some rows. */
    method LeastRow(rows: set<Event>) returns (least: Event)
      requires Ranking.StrictTotalOn(Earlier, rows) && rows != {}
      ensures least in rows && forall e :: e in rows && e != least ==> Earlier(least, e)
    {
      least :| least in rows;
      var seen := {least};
      while seen != rows
        invariant seen <= rows && least in seen
        invariant forall e :: e in seen && e != least ==> Earlier(least, e)
        decreases rows - seen
      {
        assert rows - seen != {} by {
          if rows - seen == {} {
            forall e | e in rows ensures e in seen { assert e !in rows - seen; }
          }
        }
        var e :| e in rows - seen;
        if Earlier(e, least) { least := e; }
        seen := seen + {e};
      }
    }

    method FirstRows(rows: set<Event>, n: nat) returns (first: set<Event>)
      requires Ranking.StrictTotalOn(Earlier, rows) && n <= |rows|
      ensures Ranking.IsFirst(Earlier, rows, first, n)
    {
      first := {};
      while |first| < n
        invariant |first| <= n && Ranking.IsFirst(Earlier, rows, first, |first|)
        decreases n - |first|
      {
        assert rows - first != {} by {
          assert rows == first + (rows - first);
        }
        var least := LeastRow(rows - first);
        first := first + {least};
      }
    }
  
    /** DELETE ... WHERE created_at < cutoff */
    method PruneByAge(cutoff: int)
      modifies this`table
      ensures Did(old(table), ByAge(cutoff), table)
    {
      table := Retain(table, Since(cutoff));
      IsDid(old(table), ByAge(cutoff), table);
    }

    /** For every group: DELETE ... WHERE request_id = ? AND seq <= MAX(seq) - cap, when that bound is positive. */
    method PruneByRequest()
      requires StreamStore.Valid(table) && Positive(table)
      modifies this`table
      ensures Did(old(table), ByRequest(retention.maxPerRequest), table)
    {
      ghost var before := table;
      var todo := table.Keys;
      while todo != {}
        invariant todo <= before.Keys == table.Keys
        invariant forall r :: r in todo ==> table[r] == before[r]
        invariant forall r :: r in before && r !in todo ==> table[r] == CutGroup(before[r], retention.maxPerRequest)
        decreases todo
      {
        var r :| r in todo;
        var cutoff := LastNum(table[r]) - retention.maxPerRequest;
        if cutoff > 0 {
          table := table[r := Filter(table[r], After(cutoff))];
        }
        todo := todo - {r};
      }
      CutGroups(before, table, retention.maxPerRequest);
      IsDid(before, ByRequest(retention.maxPerRequest), table);
    }

    /** DELETE the oldest rows beyond the total. */
    method PruneByTotal()
      requires Active(retention) && StreamStore.Valid(table)
      modifies this`table
      ensures Did(old(table), ByTotal(retention.maxTotal), table)
    {
      var rows := Rows(table);
      var excess := |rows| - retention.maxTotal;
      if excess > 0 {
        ValidKeyed(table);
        EarlierStrictTotal(table);
        var gone := FirstRows(rows, excess);
        PruneTotalIs(table, gone, retention.maxTotal);
        table := Retain(table, Outside(gone));
      }
      IsDid(old(table), ByTotal(retention.maxTotal), table);
    }

    /** pruneLocked */
    method PruneLocked(now: int)
      requires Active(retention) && StreamStore.Valid(table) && Positive(table)
      modifies this`table
      ensures Passed(old(table), table, retention, now)
    {
      PruneByAge(now - retention.maxAge);
      ByAgeKeeps(old(table), table, now - retention.maxAge);
      DropsOldestPositive(old(table), table);
      ghost var byAge := table;
      PruneByRequest();
      ByRequestKeeps(byAge, table, retention.maxPerRequest);
      PruneByTotal();
    }

    // ---- insertEventLocked ----

    method PutState(request: string, st: StreamState)
      requires Valid() && st.nextSeq == |IssuedOf(request)| + 1 && st.buffer.next >= 1
      modifies this`states
      ensures Valid() && request in states && states[request] == st
      ensures forall q :: q != request ==> BufferOf(q) == old(BufferOf(q))
    {
      states := states[request := st];
      forall q ensures CounterGood(q) { assert old(CounterGood(q)); }
    }

    /** loadStateLocked: cached, or derived from the rows that are stored. */
    method LoadState(request: string) returns (st: StreamState)
      requires Valid()
      modifies this`states
      ensures Valid() && request in states && states[request] == st
      ensures st.buffer == old(BufferOf(request)) && st.buffer.next >= 1 && st.nextSeq == |IssuedOf(request)| + 1
      ensures forall q :: q != request ==> BufferOf(q) == old(BufferOf(q))
    {
      assert CounterGood(request) && Good(View(request), request);
      if request in states {
        st := states[request];
      } else {
        SuffixSlice(RunOf(table, request), IssuedOf(request));
        st := Derive(RunOf(table, request));
      }
      PutState(request, st);
    }

    /** dispatchLocked */
    method DispatchLocked(e: Event)
      modifies this`subs
      ensures SubsOf(e.request) == Dispatch(old(SubsOf(e.request)), e)
      ensures forall q :: q != e.request ==> SubsOf(q) == old(SubsOf(q))
    {
      var targets := SubsOf(e.request);
      var done: seq<Subscriber> := [];
      for i := 0 to |targets|
        invariant |done| == i && forall k :: 0 <= k < i ==> done[k] == Deliver(targets[k], e)
      {
        done := done + [Deliver(targets[i], e)];
      }
      assert done == Dispatch(targets, e);
      if e.request in subs { subs := subs[e.request := done]; }
    }

    lemma {:induction false} ValidIsPositive()
      requires Valid()
      ensures Positive(table)
    {
      forall r, x | x in RunOf(table, r) ensures x.num >= 1 {
        assert Good(View(r), r);
        LogPositive(RunOf(table, r), IssuedOf(r), r, x);
      }
    }

    /** The INSERT and the retention pass. */
    method StoreRow(e: Event, ghost log: Run, prunedAt: int)
      requires Active(retention) && StreamStore.Valid(table) && Positive(table)
      requires IsLog(log, e.request) && IsSuffix(RunOf(table, e.request), log) && e.num == |log| + 1
      requires log != [] ==> log[|log| - 1].createdAt <= e.createdAt
      modifies this`table
      ensures StreamStore.Valid(table) && Passed(Inserted(old(table), e), table, retention, prunedAt)
      ensures IsSuffix(RunOf(table, e.request), old(RunOf(table, e.request)) + [e])
      ensures forall q :: q != e.request ==> IsSuffix(RunOf(table, q), old(RunOf(table, q)))
    {
      RunAppend(RunOf(table, e.request), log, e);
      InsertPositive(table, e);
      table := Inserted(table, e);
      PruneLocked(prunedAt);
      PassedKeeps(Inserted(old(table), e), table, retention, prunedAt);
      InsertThenPrune(old(table), e, table);
    }

    /** The counter moves on. */
    method Count(e: Event, st: StreamState, ghost at: int)
      requires forall q :: CounterGood(q)
      requires clock <= e.createdAt <= at && st.nextSeq == |IssuedOf(e.request)| + 1 && st.buffer.next >= 1
      modifies this`states, this`issued, this`clock
      ensures clock == at && forall q :: CounterGood(q)
      ensures e.request in states && states[e.request] == st.(nextSeq := st.nextSeq + 1)
      ensures IssuedOf(e.request) == old(IssuedOf(e.request)) + [e]
      ensures forall q :: q != e.request ==> IssuedOf(q) == old(IssuedOf(q)) && BufferOf(q) == old(BufferOf(q))
    {
      states := states[e.request := st.(nextSeq := st.nextSeq + 1)];
      issued := issued[e.request := IssuedOf(e.request) + [e]];
      clock := at;
      forall q ensures CounterGood(q) { assert old(CounterGood(q)); }
    }

    /** The row is stored, the counter moves on, the subscribers are sent the event. */
    method Write(e: Event, st: StreamState, prunedAt: int)
      requires Active(retention) && StreamStore.Valid(table) && Positive(table) && forall q :: CounterGood(q)
      requires IsLog(IssuedOf(e.request), e.request) && IsSuffix(RunOf(table, e.request), IssuedOf(e.request))
      requires e.num == st.nextSeq == |IssuedOf(e.request)| + 1 && st.buffer.next >= 1 && clock <= e.createdAt <= prunedAt
      modifies this`table, this`states, this`subs, this`issued, this`clock
      ensures StreamStore.Valid(table) && Passed(Inserted(old(table), e), table, retention, prunedAt)
      ensures IsSuffix(RunOf(table, e.request), old(RunOf(table, e.request)) + [e])
      ensures forall q :: q != e.request ==> IsSuffix(RunOf(table, q), old(RunOf(table, q)))
      ensures clock == prunedAt && forall q :: CounterGood(q)
      ensures e.request in states && states[e.request] == st.(nextSeq := st.nextSeq + 1)
      ensures IssuedOf(e.request) == old(IssuedOf(e.request)) + [e] && SubsOf(e.request) == Dispatch(old(SubsOf(e.request)), e)
      ensures forall q :: q != e.request ==> IssuedOf(q) == old(IssuedOf(q)) && BufferOf(q) == old(BufferOf(q))
      ensures forall q :: q != e.request ==> SubsOf(q) == old(SubsOf(q))
    {
      assert CounterGood(e.request);
      StoreRow(e, IssuedOf(e.request), prunedAt);
      Count(e, st, prunedAt);
      DispatchLocked(e);
    }

    method Insert(request: string, st: StreamState, body: Body, created: int, prunedAt: int) returns (e: Event)
      requires Valid() && clock <= created <= prunedAt && |IssuedOf(request)| < MAX_INT64
      requires st.nextSeq == |IssuedOf(request)| + 1 && st.buffer.next >= 1
      modifies this`table, this`states, this`subs, this`issued, this`clock
      ensures Valid() && clock == prunedAt && Passed(Inserted(old(table), e), table, retention, prunedAt)
      ensures e == Event(request, |old(IssuedOf(request))| + 1, body, created)
      ensures IssuedOf(request) == old(IssuedOf(request)) + [e]
      ensures request in states && states[request] == st.(nextSeq := st.nextSeq + 1)
      ensures SubsOf(request) == Dispatch(old(SubsOf(request)), e) && forall q :: q != request ==> SubsOf(q) == old(SubsOf(q))
      ensures forall q :: q != request ==> IssuedOf(q) == old(IssuedOf(q)) && BufferOf(q) == old(BufferOf(q))
      ensures forall q {:trigger Reaches(old(View(q)), q, View(q))} :: Reaches(old(View(q)), q, View(q))
    {
      e := Event(request, st.nextSeq, body, created);
      assert CounterGood(request) && Good(View(request), request);
      ValidIsPositive();
      Write(e, st, prunedAt);
      forall q ensures Reaches(old(View(q)), q, View(q)) && Good(View(q), q) {
        ghost var s := old(View(q));
        assert old(CounterGood(q)) && Good(s, q);
        if q == request {
          assert View(q) == Stream(s.issued + [e], RunOf(table, q), Dispatch(s.subs, e), s.nextId);
          AppendedStep(s, e, RunOf(table, q));
        } else {
          assert View(q) == Stream(s.issued, RunOf(table, q), s.subs, s.nextId);
          PrunedStep(s, q, RunOf(table, q));
        }
      }
    }

    // ---- the operations ----

    /** A new event of a request, at the end of its log. */
    method Append(id: string, body: Body, created: int, prunedAt: int) returns (e: Event)
      requires Valid() && clock <= created <= prunedAt && |IssuedOf(id)| < MAX_INT64
      modifies this`table, this`states, this`subs, this`issued, this`clock
      ensures Valid() && clock == prunedAt && Passed(Inserted(old(table), e), table, retention, prunedAt)
      ensures SubsOf(id) == Dispatch(old(SubsOf(id)), e) && forall q :: q != id ==> SubsOf(q) == old(SubsOf(q))
      ensures forall q {:trigger Reaches(old(View(q)), q, View(q))} :: Reaches(old(View(q)), q, View(q))
      ensures forall q :: BufferOf(q) == old(BufferOf(q))
      ensures e == Event(id, |old(IssuedOf(id))| + 1, body, created) && IssuedOf(id) == old(IssuedOf(id)) + [e]
      ensures forall q :: q != id ==> IssuedOf(q) == old(IssuedOf(q))
    {
      var st := LoadState(id);
      label loaded:
      e := Insert(id, st, body, created, prunedAt);
      forall q ensures Reaches(old(View(q)), q, View(q)) {
        assert old@loaded(View(q)) == old(View(q));
        assert Reaches(old@loaded(View(q)), q, View(q));
      }
    }

    /** AppendMarker at time `created`, with the retention pass at `prunedAt`. */
    method AppendMarker(requestID: string, kind: string, data: string, created: int, prunedAt: int) returns (r: Option<Event>)
      requires Valid() && clock <= created <= prunedAt && |IssuedOf(Trim(requestID))| < MAX_INT64
      modifies this`table, this`states, this`subs, this`issued, this`clock
      ensures Valid() && forall q {:trigger Reaches(old(View(q)), q, View(q))} :: Reaches(old(View(q)), q, View(q))
      ensures forall q :: BufferOf(q) == old(BufferOf(q))
      ensures r.None? <==> AllSpace(requestID)
      ensures r.None? ==> issued == old(issued) && states == old(states)
      ensures r.Some? ==>
        var id := Trim(requestID);
        && r.value == Event(id, |old(IssuedOf(id))| + 1, MarkerBody(kind, data), created)
        && IssuedOf(id) == old(IssuedOf(id)) + [r.value] && Passed(Inserted(old(table), r.value), table, retention, prunedAt)
        && forall q :: q != id ==> IssuedOf(q) == old(IssuedOf(q))
    {
      var id := Trim(requestID);
      if id == "" {
        forall q ensures Reaches(old(View(q)), q, View(q)) { ReachesItself(View(q), q); }
        return None;
      }
      var e := Append(id, MarkerBody(kind, data), created, prunedAt);
      r := Some(e);
    }

    /** One turn of the release loop: the next chunk leaves the buffer and becomes an event. */
    method EmitNext(id: string, created: int, prunedAt: int, ghost start: imap<string, Stream>) returns (e: Event)
      requires Valid() && clock <= created <= prunedAt && |IssuedOf(id)| < MAX_INT64
      requires id in states && BufferOf(id).next in BufferOf(id).pending
      requires Traced(start)
      modifies this`table, this`states, this`subs, this`issued, this`clock
      ensures Valid() && clock == prunedAt && Traced(start)
      ensures e == Event(id, |old(IssuedOf(id))| + 1, OutputBody(old(BufferOf(id).pending[BufferOf(id).next])), created)
      ensures IssuedOf(id) == old(IssuedOf(id)) + [e]
      ensures id in states && BufferOf(id) == Released(old(BufferOf(id)))
      ensures forall q :: q != id ==> IssuedOf(q) == old(IssuedOf(q)) && BufferOf(q) == old(BufferOf(q))
    {
      assert CounterGood(id);
      var b := BufferOf(id);
      var next := b.pending[b.next];
      e := Insert(id, states[id].(buffer := Buffer(b.next, b.pending - {b.next})), OutputBody(next), created, prunedAt);
      forall q ensures Reaches(start[q], q, View(q)) {
        ReachesTransitive(start[q], q, old(View(q)), View(q));
      }
      PutState(id, states[id].(buffer := Released(b)));
    }

    /** Every request is where the state machine can get from the given start. */
    ghost predicate Traced(start: imap<string, Stream>) reads this`issued, this`table, this`subs, this`subIds {
      (forall q :: q in start) && forall q {:trigger Reaches(start[q], q, View(q))} :: Reaches(start[q], q, View(q))
    }

    /** One turn of the release loop, with the clock readings for its event. */
    method ReleaseOne(id: string, now: nat -> int, emitted: seq<Event>, ghost log: Run, ghost all: (Buffer, seq<Chunk>), ghost start: imap<string, Stream>)
      returns (more: seq<Event>)
      requires Valid() && id in states && clock <= now(2 * |emitted|) && Runs(now) && Traced(start) && Along(BufferOf(id), IssuedOf(id), id, log, emitted, all, now)
      requires BufferOf(id).next in BufferOf(id).pending && |IssuedOf(id)| + |BufferOf(id).pending| <= MAX_INT64
      modifies this`table, this`states, this`subs, this`issued, this`clock
      ensures Valid() && id in states && clock <= now(2 * |more|) && Traced(start) && Along(BufferOf(id), IssuedOf(id), id, log, more, all, now)
      ensures |BufferOf(id).pending| < |old(BufferOf(id)).pending| && |IssuedOf(id)| + |BufferOf(id).pending| <= MAX_INT64
      ensures forall q :: q != id ==> IssuedOf(q) == old(IssuedOf(q)) && BufferOf(q) == old(BufferOf(q))
    {
      ghost var b, issued0 := BufferOf(id), IssuedOf(id);
      assert Ticks(now, 2 * |emitted|) && Ticks(now, 2 * |emitted| + 1);
      PendingShrinks(b);
      var e := EmitNext(id, now(2 * |emitted|), now(2 * |emitted| + 1), start);
      OneReleased(b, issued0, log, emitted, e, id, all, now);
      more := emitted + [e];
    }

    /** The release loop. `now` gives the clock readings: two for every event it stores. */
    method Release(id: string, now: nat -> int, ghost start: imap<string, Stream>) returns (emitted: seq<Event>)
      requires Valid() && id in states && clock <= now(0) && Runs(now) && Traced(start)
      requires |IssuedOf(id)| + |BufferOf(id).pending| <= MAX_INT64
      modifies this`table, this`states, this`subs, this`issued, this`clock
      ensures Valid() && Traced(start)
      ensures BufferOf(id) == Drain(old(BufferOf(id))).0
      ensures |emitted| == |Drain(old(BufferOf(id))).1|
      ensures Stores(emitted, id, Drain(old(BufferOf(id))).1, |old(IssuedOf(id))| + 1, now)
      ensures IssuedOf(id) == old(IssuedOf(id)) + emitted
      ensures forall q :: q != id ==> IssuedOf(q) == old(IssuedOf(q)) && BufferOf(q) == old(BufferOf(q))
    {
      emitted := [];
      ghost var log, all := IssuedOf(id), Drain(BufferOf(id));
      assert log + [] == log && all.1[0..] == all.1;
      while BufferOf(id).next in BufferOf(id).pending
        invariant Valid() && id in states && clock <= now(2 * |emitted|) && Traced(start) && Along(BufferOf(id), IssuedOf(id), id, log, emitted, all, now)
        invariant |IssuedOf(id)| + |BufferOf(id).pending| <= MAX_INT64
        invariant forall q :: q != id ==> IssuedOf(q) == old(IssuedOf(q)) && BufferOf(q) == old(BufferOf(q))
        decreases |BufferOf(id).pending|
      {
        emitted := ReleaseOne(id, now, emitted, log, all, start);
      }
    }

    /** Number a chunk and put it into the buffer, unless its number has passed. */
    method TakeIn(id: string, chunk: Chunk) returns (late: bool)
      requires Valid()
      modifies this`states
      ensures Valid() && id in states
      ensures late ==> Accept(old(BufferOf(id)), chunk) == (BufferOf(id), [])
      ensures !late ==> Accept(old(BufferOf(id)), chunk) == Drain(BufferOf(id))
      ensures |BufferOf(id).pending| <= |old(BufferOf(id)).pending| + 1
      ensures forall q :: q != id ==> BufferOf(q) == old(BufferOf(q))
    {
      var st := LoadState(id);
      var c := Numbered(st.buffer, chunk);
      late := c.num < st.buffer.next;
      if !late { PutState(id, st.(buffer := Place(st.buffer, c))); }
    }

    method AppendChunk(id: string, chunk: Chunk, now: nat -> int) returns (emitted: seq<Event>)
      requires Valid() && clock <= now(0) && Runs(now)
      requires |IssuedOf(id)| + |BufferOf(id).pending| < MAX_INT64
      modifies this`table, this`states, this`subs, this`issued, this`clock
      ensures Valid() && forall q {:trigger Reaches(old(View(q)), q, View(q))} :: Reaches(old(View(q)), q, View(q))
      ensures BufferOf(id) == Accept(old(BufferOf(id)), chunk).0
      ensures |emitted| == |Accept(old(BufferOf(id)), chunk).1|
      ensures Stores(emitted, id, Accept(old(BufferOf(id)), chunk).1, |old(IssuedOf(id))| + 1, now)
      ensures IssuedOf(id) == old(IssuedOf(id)) + emitted
      ensures forall q :: q != id ==> IssuedOf(q) == old(IssuedOf(q)) && BufferOf(q) == old(BufferOf(q))
    {
      ghost var start := imap q: string | true :: View(q);
      forall q ensures Reaches(start[q], q, View(q)) { ReachesItself(View(q), q); }
      var late := TakeIn(id, chunk);
      emitted := [];
      if !late { emitted := Release(id, now, start); }
    }

    method AppendOutputChunk(chunk: Chunk, now: nat -> int) returns (emitted: seq<Event>)
      requires Valid() && clock <= now(0) && Runs(now)
      requires |IssuedOf(Trim(chunk.request))| + |BufferOf(Trim(chunk.request)).pending| < MAX_INT64
      modifies this`table, this`states, this`subs, this`issued, this`clock
      ensures Valid() && forall q {:trigger Reaches(old(View(q)), q, View(q))} :: Reaches(old(View(q)), q, View(q))
      ensures AllSpace(chunk.request) ==> emitted == [] && issued == old(issued) && states == old(states)
      ensures !AllSpace(chunk.request) ==>
        var id := Trim(chunk.request);
        && BufferOf(id) == Accept(old(BufferOf(id)), chunk).0
        && |emitted| == |Accept(old(BufferOf(id)), chunk).1|
        && Stores(emitted, id, Accept(old(BufferOf(id)), chunk).1, |old(IssuedOf(id))| + 1, now)
        && IssuedOf(id) == old(IssuedOf(id)) + emitted
        && (forall q :: q != id ==> IssuedOf(q) == old(IssuedOf(q)) && BufferOf(q) == old(BufferOf(q)))
    {
      var id := Trim(chunk.request);
      if id == "" {
        forall q ensures Reaches(old(View(q)), q, View(q)) { ReachesItself(View(q), q); }
        return [];
      }
      emitted := AppendChunk(id, chunk, now);
    }

    /** SELECT ... WHERE seq > after ORDER BY seq LIMIT n, row by row. */
    method Select(run: Run, after: nat, n: nat) returns (rows: Run)
      ensures rows == SelectAfter(run, after, n)
    {
      rows := [];
      for i := 0 to |run|
        invariant rows == Take(Filter(run[..i], After(after)), n)
      {
        FilterNext(run, i, After(after));
        if run[i].num > after && |rows| < n { rows := rows + [run[i]]; }
      }
      assert run[..|run|] == run;
    }

    method NextCursor(events: Run, latest: nat, last: nat) returns (next: nat)
      ensures next == NextNum(events, latest, last)
    {
      next := last;
      if |events| > 0 {
        next := events[|events| - 1].num;
      } else if latest > 0 && last > latest {
        next := latest;
      }
    }

    /** replayLocked for a request and a resolved cursor. */
    method ReplayLocked(id: string, last: nat, limit: int) returns (page: Page)
      ensures page == ReplayFrom(RunOf(table, id), last, limit)
    {
      var run, n := RunOf(table, id), NormalLimit(limit);
      var earliest, latest := FirstNum(run), LastNum(run);
      var truncated, missedFrom, missedTo := false, 0, 0;
      if earliest > 0 && last + 1 < earliest {
        truncated, missedFrom, missedTo := true, last + 1, earliest - 1;
      }
      var rows := Select(run, last, n + 1);
      var events, hasMore := rows, false;
      if |events| > n {
        hasMore := true;
        events := events[..n];
      }
      ghost var spec := ReplayFrom(run, last, limit);
      assert events == spec.events && hasMore == spec.hasMore;
      var next := NextCursor(events, latest, last);
      page := Page(events, earliest, latest, next, hasMore, truncated, missedFrom, missedTo);
    }

    /** Replay: a page tells everything between the cursor it was asked for and its own. */
    method Replay(requestID: string, query: Query) returns (r: Result<Reply>)
      requires Valid()
      ensures AllSpace(requestID) ==> r == Ok(NO_REPLY)
      ensures !AllSpace(requestID) ==>
        var id := Trim(requestID);
        match ResolveCursor(id, query)
        case Err(e) => r == Err(e)
        case Ok(last) =>
          && r == Ok(ReplyWith(id, ReplayFrom(RunOf(table, id), last, query.limit)))
          && var page := r.value.page;
             last <= |IssuedOf(id)| ==> last <= page.next && Tiles(PageItems(page), IssuedOf(id), last, page.next)
    {
      var id := Trim(requestID);
      if id == "" { return Ok(NO_REPLY); }
      match ResolveCursor(id, query)
      case Err(e) => return Err(e);
      case Ok(last) =>
        var page := ReplayLocked(id, last, query.limit);
        assert Good(View(id), id);
        if last <= |IssuedOf(id)| { PageTiles(IssuedOf(id), RunOf(table, id), id, last, query.limit); }
        return Ok(ReplyWith(id, page));
    }

    method PutSubs(id: string, list: seq<Subscriber>, nextId: nat)
      requires Valid() && Good(Stream(IssuedOf(id), RunOf(table, id), list, nextId), id)
      modifies this`subs, this`subIds
      ensures Valid()
      ensures View(id) == old(View(id)).(subs := list, nextId := nextId)
      ensures forall q :: q != id ==> View(q) == old(View(q))
    {
      subs := if list == [] then subs - {id} else subs[id := list];
      subIds := subIds[id := nextId];
      forall q ensures Good(View(q), q) && CounterGood(q) {
        assert old(Good(View(q), q)) && old(CounterGood(q));
        assert q != id ==> View(q) == old(View(q));
      }
    }

    method AddSubscriber(id: string, after: nat, bufSize: int) returns (sub: nat)
      requires Valid()
      modifies this`subs, this`subIds
      ensures Valid() && sub == old(IdOf(id)) && View(id) == Subscribe(old(View(id)), after, bufSize)
      ensures forall q :: q != id ==> View(q) == old(View(q))
    {
      assert CounterGood(id) && Good(View(id), id);
      var capacity: nat := if bufSize <= 0 then DEFAULT_CAPACITY else bufSize;
      sub := IdOf(id);
      SubscribeKeepsGood(View(id), id, after, bufSize);
      PutSubs(id, SubsOf(id) + [Subscriber(sub, after, capacity, NextSeq(id) - 1, [], 0, false)], sub + 1);
    }

    /** The page after a cursor, and a subscriber behind it. */
    method SubscribeAfter(id: string, last: nat, limit: int, bufSize: int) returns (page: Page, sub: nat)
      requires Valid()
      modifies this`subs, this`subIds
      ensures Valid()
      ensures forall q :: q != id ==> View(q) == old(View(q))
      ensures page == ReplayFrom(RunOf(table, id), last, limit) && sub == old(IdOf(id))
      ensures View(id) == Apply(old(View(id)), id, Subscribed(last, limit, bufSize))
    {
      page := ReplayLocked(id, last, limit);
      sub := AddSubscriber(id, page.next, bufSize);
    }

    /** ReplayAndSubscribe. The subscriber's identity stands for the reference the code returns. */
    method ReplayAndSubscribe(requestID: string, query: Query, bufSize: int) returns (r: Result<(Reply, Option<nat>)>)
      requires Valid()
      modifies this`subs, this`subIds
      ensures Valid()
      ensures forall q :: q != Trim(requestID) ==> View(q) == old(View(q))
      ensures AllSpace(requestID) ==> r == Ok((NO_REPLY, None)) && View("") == old(View(""))
      ensures !AllSpace(requestID) ==>
        var id := Trim(requestID);
        match ResolveCursor(id, query)
        case Err(e) => r == Err(e) && View(id) == old(View(id))
        case Ok(last) =>
          && r == Ok((ReplyWith(id, ReplayFrom(RunOf(table, id), last, query.limit)), Some(old(IdOf(id)))))
          && View(id) == Apply(old(View(id)), id, Subscribed(last, query.limit, bufSize))
    {
      var id := Trim(requestID);
      if id == "" { return Ok((NO_REPLY, None)); }
      match ResolveCursor(id, query)
      case Err(e) => return Err(e);
      case Ok(last) =>
        var page, sub := SubscribeAfter(id, last, query.limit, bufSize);
        return Ok((ReplyWith(id, page), Some(sub)));
    }

    /** The cleanup function that ReplayAndSubscribe returns. */
    method Unsubscribe(id: string, sub: nat)
      requires Valid()
      modifies this`subs, this`subIds
      ensures Valid()
      ensures View(id) == Apply(old(View(id)), id, Unsubscribed(sub))
      ensures forall q :: q != id ==> View(q) == old(View(q))
    {
      var list := Without(SubsOf(id), sub);
      ApplyKeepsGood(View(id), id, Unsubscribed(sub));
      PutSubs(id, list, IdOf(id));
    }

    method Without(list: seq<Subscriber>, sub: nat) returns (rest: seq<Subscriber>)
      ensures rest == Remove(list, sub)
    {
      rest := [];
      var i := 0;
      while i < |list| && list[i].id != sub
        invariant i <= |list| && rest + Remove(list[i..], sub) == Remove(list, sub)
      {
        assert list[i..][1..] == list[i + 1..] && list[i..][0] == list[i];
        RegroupSubs(rest, [list[i]], Remove(list[i + 1..], sub));
        rest := rest + [list[i]];
        i := i + 1;
      }
      if i < |list| {
        assert list[i..][1..] == list[i + 1..];
        rest := rest + list[i + 1..];
      }
    }
  }

  lemma {:induction false} RegroupSubs(a: seq<Subscriber>, b: seq<Subscriber>, c: seq<Subscriber>)
    ensures (a + b) + c == a + (b + c)
  {}

  /** The zero StreamReplayResult. */
  const NO_REPLY := Reply(Page([], 0, 0, 0, false, false, 0, 0), "")

  const RESULT_KIND := "result"

  function MarkerBody(kind: string, data: string): Body {
    Marker(if AllSpace(kind) then RESULT_KIND else Trim(kind), Trim(data))
  }

  function OutputBody(c: Chunk): Body {
    Output(Trim(c.stream), c.data, c.num, c.final, if c.final then Some(c.exitCode) else None)
  }

  lemma {:induction false} FilterNext(run: Run, i: nat, keep: Event -> bool)
    requires i < |run|
    ensures Filter(run[..i + 1], keep) == Filter(run[..i], keep) + if keep(run[i]) then [run[i]] else []
  {
    assert run[..i + 1] == run[..i] + [run[i]];
    FilterAppend(run[..i], run[i], keep);
  }

  lemma {:induction false} FilterAppend(run: Run, e: Event, keep: Event -> bool)
    ensures Filter(run + [e], keep) == Filter(run, keep) + if keep(e) then [e] else []
  {
    if run != [] {
      assert (run + [e])[1..] == run[1..] + [e];
      FilterAppend(run[1..], e, keep);
    }
  }

  /** The buffer once its next chunk is released. */
  function Released(b: Buffer): Buffer {
    Buffer(b.next + 1, b.pending - {b.next})
  }

  /** Draining starts with the next chunk and carries on with what is left. */
  lemma {:induction false} DrainOne(b: Buffer)
    requires b.next in b.pending
    ensures |Released(b).pending| == |b.pending| - 1
    ensures Drain(b) == (Drain(Released(b)).0, [b.pending[b.next]] + Drain(Released(b)).1)
  {
    assert Released(b).pending.Keys == b.pending.Keys - {b.next};
    assert |Released(b).pending| == |Released(b).pending.Keys| && |b.pending| == |b.pending.Keys|;
  }

  lemma {:induction false} RestAfter(all: seq<Chunk>, k: nat, c: Chunk, rest: seq<Chunk>)
    requires k <= |all| && all[k..] == [c] + rest
    ensures k < |all| && all[k] == c && all[k + 1..] == rest
  {
    assert |all[k..]| == 1 + |rest| && all[k..][0] == c;
    assert all[k + 1..] == all[k..][1..];
  }

  predicate Ticks(now: nat -> int, i: nat) {
    now(i) <= now(i + 1)
  }

  /** The clock readings do not run backwards. */
  ghost predicate Runs(now: nat -> int) {
    forall i: nat {:trigger Ticks(now, i)} :: Ticks(now, i)
  }

  /** The events store the first of the chunks one by one, numbered from `base`, with two clock readings for each. */
  ghost predicate Stores(events: seq<Event>, id: string, chunks: seq<Chunk>, base: nat, now: nat -> int) {
    && |events| <= |chunks|
    && forall k: nat {:trigger StoredAt(events, id, chunks, base, now, k)} :: k < |events| ==> StoredAt(events, id, chunks, base, now, k)
  }

  predicate StoredAt(events: seq<Event>, id: string, chunks: seq<Chunk>, base: nat, now: nat -> int, k: nat)
    requires k < |events| && k < |chunks|
  {
    events[k] == Event(id, base + k, OutputBody(chunks[k]), now(2 * k))
  }

  lemma {:induction false} PendingShrinks(b: Buffer)
    requires b.next in b.pending
    ensures |b.pending| >= 1
  {
    assert b.next in b.pending.Keys && |b.pending| == |b.pending.Keys|;
  }

  /** The events store the first chunks of `all` behind the log, and the rest is still to be released. */
  ghost predicate Along(b: Buffer, issued: Run, id: string, log: Run, events: seq<Event>, all: (Buffer, seq<Chunk>), now: nat -> int) {
    && Stores(events, id, all.1, |log| + 1, now) && issued == log + events
    && Drain(b) == (all.0, all.1[|events|..])
  }

  /** One turn of the release loop brings the buffer and the events one chunk further. */
  lemma {:induction false} OneReleased(b: Buffer, issued: Run, log: Run, events: seq<Event>, e: Event, id: string, all: (Buffer, seq<Chunk>), now: nat -> int)
    requires b.next in b.pending && Along(b, issued, id, log, events, all, now)
    requires e == Event(id, |issued| + 1, OutputBody(b.pending[b.next]), now(2 * |events|))
    ensures |Released(b).pending| == |b.pending| - 1
    ensures Along(Released(b), issued + [e], id, log, events + [e], all, now)
  {
    DrainOne(b);
    RestAfter(all.1, |events|, b.pending[b.next], Drain(Released(b)).1);
    StoresOne(log, events, e, id, all.1, now);
  }

  lemma {:induction false} StoresOne(log: Run, events: seq<Event>, e: Event, id: string, chunks: seq<Chunk>, now: nat -> int)
    requires Stores(events, id, chunks, |log| + 1, now) && |events| < |chunks|
    requires e == Event(id, |log| + 1 + |events|, OutputBody(chunks[|events|]), now(2 * |events|))
    ensures Stores(events + [e], id, chunks, |log| + 1, now)
    ensures (log + events) + [e] == log + (events + [e])
  {
    var more, base := events + [e], |log| + 1;
    forall k: nat | k < |more| ensures StoredAt(more, id, chunks, base, now, k) {
      if k < |events| { assert StoredAt(events, id, chunks, base, now, k); }
    }
  }

  // ---- facts about the table behind the methods ----

  ghost predicate Positive(t: Table) {
    forall r, e :: e in RunOf(t, r) ==> e.num >= 1
  }

  lemma {:induction false} InsertThenPrune(t: Table, e: Event, t': Table)
    requires DropsOldest(Inserted(t, e), t')
    ensures IsSuffix(RunOf(t', e.request), RunOf(t, e.request) + [e])
    ensures forall q :: q != e.request ==> IsSuffix(RunOf(t', q), RunOf(t, q))
  {
    forall q | q != e.request ensures IsSuffix(RunOf(t', q), RunOf(t, q)) {
      assert q in t' <==> q in t;
    }
  }

  /** Appending `e`, keeping a suffix of the rows and dispatching is one step of the state machine. */
  lemma {:induction false} AppendedIsApply(s: Stream, e: Event, run: Run)
    requires e.num == |s.issued| + 1 && IsSuffix(run, s.run + [e])
    requires Enabled(s, Appended(e.body, e.createdAt, |run|))
    ensures Apply(s, e.request, Appended(e.body, e.createdAt, |run|)) == Stream(s.issued + [e], run, Dispatch(s.subs, e), s.nextId)
  {
    SuffixSlice(run, s.run + [e]);
  }

  lemma {:induction false} AppendedStep(s: Stream, e: Event, run: Run)
    requires Good(s, e.request) && e.num == |s.issued| + 1 && |s.issued| < MAX_INT64
    requires s.issued != [] ==> s.issued[|s.issued| - 1].createdAt <= e.createdAt
    requires IsSuffix(run, s.run + [e])
    ensures var s' := Stream(s.issued + [e], run, Dispatch(s.subs, e), s.nextId);
            Reaches(s, e.request, s') && Good(s', e.request)
  {
    assert |run| <= |s.run| + 1 by { SuffixSlice(run, s.run + [e]); }
    var step := Appended(e.body, e.createdAt, |run|);
    AppendedIsApply(s, e, run);
    ReachesInOne(s, e.request, step);
    ApplyKeepsGood(s, e.request, step);
  }

  lemma {:induction false} PrunedStep(s: Stream, request: string, run: Run)
    requires Good(s, request) && IsSuffix(run, s.run)
    ensures Reaches(s, request, s.(run := run)) && Good(s.(run := run), request)
  {
    SuffixSlice(run, s.run);
    var step := Pruned(|run|);
    ReachesInOne(s, request, step);
    ApplyKeepsGood(s, request, step);
  }

  lemma {:induction false} LogPositive(run: Run, issued: Run, request: string, e: Event)
    requires IsLog(issued, request) && IsSuffix(run, issued) && e in run
    ensures e.num >= 1
  {
    SuffixSlice(run, issued);
    var i :| 0 <= i < |issued| && issued[i] == e;
    ContiguousAt(issued, request, i);
  }

  lemma {:induction false} InsertPositive(t: Table, e: Event)
    requires Positive(t) && e.num >= 1
    ensures Positive(Inserted(t, e))
  {
    var t' := Inserted(t, e);
    forall r, x | x in RunOf(t', r) ensures x.num >= 1 {
      assert x == e || x in RunOf(t, r);
    }
  }

  lemma {:induction false} DropsOldestPositive(t: Table, t': Table)
    requires DropsOldest(t, t') && Positive(t)
    ensures Positive(t')
  {
    forall r, e | e in RunOf(t', r) ensures e.num >= 1 {
      SuffixSlice(t'[r], t[r]);
      assert e in RunOf(t, r);
    }
  }

  /** MAX(chunk_seq) over the output rows, with 0 for none. */
  function MaxChunk(run: Run): int {
    if run == [] then 0
    else
      var rest := MaxChunk(run[1..]);
      if run[0].body.Output? && run[0].body.chunkSeq > rest then run[0].body.chunkSeq else rest
  }

  function Derive(run: Run): StreamState {
    var chunk := MaxChunk(run);
    StreamState(LastNum(run) + 1, Buffer(if chunk < 0 then 1 else chunk + 1, map[]))
  }

  lemma {:induction false} RunAppend(run: Run, issued: Run, e: Event)
    requires IsLog(issued, e.request) && IsSuffix(run, issued)
    requires e.num == |issued| + 1 && (issued != [] ==> issued[|issued| - 1].createdAt <= e.createdAt)
    ensures Contiguous(run + [e], e.request)
  {
    SuffixContiguous(run, issued, e.request);
    SuffixSlice(run, issued);
    if run != [] { ContiguousAt(issued, e.request, |issued| - 1); }
    ContiguousAppend(run, e, e.request);
  }

  /** One group of the per-request delete, as the code runs it: nothing when the bound is not positive. */
  function CutGroup(run: Run, cap: int): Run {
    var cutoff := LastNum(run) - cap;
    if cutoff > 0 then Filter(run, After(cutoff)) else run
  }

  /** The group-wise delete agrees with the per-row one. */
  lemma {:induction false} RequestCut(t: Table, request: string, cap: int)
    requires StreamStore.Valid(t) && request in t && forall e :: e in t[request] ==> e.num >= 1
    ensures PrunePerRequest(t, cap)[request] == CutGroup(t[request], cap)
  {
    var run := t[request];
    forall e | e in run ensures e.request == request {
      var i :| 0 <= i < |run| && run[i] == e;
      ContiguousAt(run, request, i);
    }
    FilterAgree(run, UnderCap(t, cap), After(LastNum(run) - cap));
    if LastNum(run) - cap <= 0 { FilterAll(run, After(LastNum(run) - cap)); }
  }

  lemma {:induction false} CutGroups(t: Table, t': Table, cap: int)
    requires StreamStore.Valid(t) && Positive(t) && t'.Keys == t.Keys
    requires forall r :: r in t ==> t'[r] == CutGroup(t[r], cap)
    ensures t' == PrunePerRequest(t, cap)
  {
    forall r | r in t ensures t'[r] == PrunePerRequest(t, cap)[r] {
      forall e | e in t[r] ensures e.num >= 1 { assert e in RunOf(t, r); }
      RequestCut(t, r, cap);
    }
  }

  lemma {:induction false} FilterAgree(run: Run, p: Event -> bool, q: Event -> bool)
    requires forall e :: e in run ==> (p(e) <==> q(e))
    ensures Filter(run, p) == Filter(run, q)
  {
    if run != [] { FilterAgree(run[1..], p, q); }
  }

  // ---- what a pruned request loses ----

  /** A pass that comes later than the retention age of every row of a request leaves none of them. */
  lemma {:induction false} AgedOut(t: Table, t': Table, retention: Retention, now: int, request: string)
    requires StreamStore.Valid(t) && Active(retention) && Passed(t, t', retention, now)
    requires forall e :: e in RunOf(t, request) ==> e.createdAt < now - retention.maxAge
    ensures RunOf(t', request) == []
  {
    PassedKeeps(t, t', retention, now);
    var run := RunOf(t', request);
    assert forall e :: e in run ==> e.createdAt >= now - retention.maxAge;
    forall e | e in run ensures e in RunOf(t, request) { SuffixMembers(t'[request], t[request], e); }
    FirstIsMember(run);
  }

  lemma {:induction false} FirstIsMember(run: Run)
    ensures run == [] || run[0] in run
  {}

  /** After a restart the next number is derived from the rows that are left. It follows the last issued number if and only
      if a row of the request is left, or nothing was ever issued. */
  lemma {:induction false} RestartContinues(s: Stream, request: string)
    requires Good(s, request)
    ensures Derive(s.run).nextSeq == |s.issued| + 1 <==> s.run != [] || s.issued == []
  {
    SuffixSlice(s.run, s.issued);
    if s.run != [] { ContiguousAt(s.issued, request, |s.issued| - 1); }
  }

  lemma {:induction false} OneRow(t: Table, e: Event)
    requires StreamStore.Valid(t) && RunOf(t, e.request) == []
    ensures StreamStore.Valid(Inserted(t, e))
  {
    assert [] + [e] == [e] && [e][1..] == [];
    forall r | r in Inserted(t, e) ensures Contiguous(Inserted(t, e)[r], r) {}
  }

  /** A recorder whose only event is of one request. */
  method OneEvent(cfg: Retention, request: string, other: string, body: Body, at: int) returns (r: Recorder, first: Event)
    requires request != other
    ensures fresh(r) && r.Valid() && r.clock == at && r.retention == Normalize(cfg) && first == Event(request, 1, body, at)
    ensures r.IssuedOf(request) == [first] && r.IssuedOf(other) == [] && r.SubsOf(request) == []
  {
    r := new Recorder(cfg, at);
    assert r.View(request) == Stream([], [], [], 0) && r.View(other) == Stream([], [], [], 0);
    assert r.IssuedOf(request) == [] && r.IssuedOf(other) == [] && r.SubsOf(request) == [];
    first := r.Append(request, body, at, at);
    assert r.IssuedOf(request) == [] + [first] == [first];
  }

  /** What is stored was issued. */
  lemma {:induction false} StoredWasIssued(s: Stream, request: string)
    requires Good(s, request)
    ensures (s.issued == [] ==> s.run == []) && forall e :: e in s.run ==> e in s.issued
  {
    SuffixSlice(s.run, s.issued);
  }

  /** One event of a request, and later one of another, whose retention pass removes the first. */
  method Outlived(cfg: Retention, request: string, other: string, body: Body, at: int, later: int) returns (r: Recorder, first: Event)
    requires request != other && at <= later && later - at > Normalize(cfg).maxAge
    ensures fresh(r) && r.Valid() && r.clock == later && r.retention == Normalize(cfg) && first == Event(request, 1, body, at)
    ensures r.IssuedOf(request) == [first] && RunOf(r.table, request) == [] && r.SubsOf(request) == []
  {
    r, first := OneEvent(cfg, request, other, body, at);
    ghost var t := r.table;
    assert Good(r.View(request), request) && Good(r.View(other), other);
    StoredWasIssued(r.View(request), request);
    StoredWasIssued(r.View(other), other);
    var e := r.Append(other, body, later, later);
    OneRow(t, e);
    assert RunOf(Inserted(t, e), request) == RunOf(t, request);
    AgedOut(Inserted(t, e), r.table, r.retention, later, request);
  }

  /** The gap of the handoff is reached: the page behind 0 has no event and reports nothing missed, the subscriber is sent
      number 2 alone, and number 1 is never told. */
  method HandoffGap(cfg: Retention, request: string, other: string, body: Body, at: int, later: int)
    returns (page: Page, sent: Run)
    requires request != other && at <= later && later - at > Normalize(cfg).maxAge
    ensures page.events == [] && !page.truncated && !page.hasMore && sent == [Event(request, 2, body, later)]
  {
    var r, first := Outlived(cfg, request, other, body, at, later);
    var sub;
    page, sub := r.SubscribeAfter(request, 0, 0, 0);
    var second := r.Append(request, body, later, later);
    sent := r.SubsOf(request)[0].sent;
  }

  /** And a restart then gives the number 1 a second time. */
  method NumberRepeats(cfg: Retention, request: string, other: string, body: Body, at: int, later: int) returns (first: Event, again: nat)
    requires request != other && at <= later && later - at > Normalize(cfg).maxAge
    ensures first.num == 1 && again == 1
  {
    var r;
    r, first := Outlived(cfg, request, other, body, at, later);
    r.ValidIsPositive();
    var reopened := new Recorder.Open(cfg, r.table, later);
    PassedKeeps(r.table, reopened.table, reopened.retention, later);
    again := Derive(RunOf(reopened.table, request)).nextSeq;
  }

  // ---- what an event holds ----

  /** The event of a released chunk has the chunk's own data and number, its stream trimmed, and an exit code exactly when it
      is the final one. */
  lemma {:induction false} ChunkIsStored(events: seq<Event>, id: string, chunks: seq<Chunk>, base: nat, now: nat -> int, k: nat)
    requires Stores(events, id, chunks, base, now) && k < |events|
    ensures events[k].request == id && events[k].num == base + k && events[k].createdAt == now(2 * k) && events[k].body.Output?
    ensures var b, c := events[k].body, chunks[k];
            && b.data == c.data && b.chunkSeq == c.num && b.final == c.final && b.stream == Trim(c.stream)
            && (b.exitCode.Some? <==> c.final) && (c.final ==> b.exitCode.value == c.exitCode)
  {
    assert StoredAt(events, id, chunks, base, now, k);
  }

  /** A marker has its kind and text trimmed; without a kind it is a result. */
  lemma {:induction false} MarkerIsStored(kind: string, data: string)
    ensures MarkerBody(kind, data).Marker? && MarkerBody(kind, data).text == Trim(data)
    ensures MarkerBody(kind, data).kind == if Trim(kind) == "" then "result" else Trim(kind)
  {}

  /** After a restart the next chunk expected is the one behind the largest that is stored. */
  lemma {:induction false} RestartChunks(run: Run, e: Event)
    ensures Derive(run).buffer.pending == map[] && Derive(run).buffer.next >= 1
    ensures e in run && e.body.Output? ==> e.body.chunkSeq < Derive(run).buffer.next
    ensures Derive(run).buffer.next > 1 ==> exists i :: 0 <= i < |run| && run[i].body.Output? && run[i].body.chunkSeq == Derive(run).buffer.next - 1
  {
    MaxChunkIs(run);
  }

  lemma {:induction false} MaxChunkIs(run: Run)
    ensures MaxChunk(run) >= 0 && forall e :: e in run && e.body.Output? ==> e.body.chunkSeq <= MaxChunk(run)
    ensures MaxChunk(run) > 0 ==> exists i :: 0 <= i < |run| && run[i].body.Output? && run[i].body.chunkSeq == MaxChunk(run)
  {
    if run != [] {
      MaxChunkIs(run[1..]);
      var m := MaxChunk(run[1..]);
      if m > 0 {
        var i :| 0 <= i < |run[1..]| && run[1..][i].body.Output? && run[1..][i].body.chunkSeq == m;
        assert run[i + 1] == run[1..][i];
      }
    }
  }
}
