/** Replay pages of one request, and what a consumer that follows them learns. */
module StreamReplay {
  import opened Text
  import opened StreamStore
  import StreamToken

  const DEFAULT_LIMIT := 500
  const MAX_LIMIT := 5000

  function NormalLimit(limit: int): (n: nat)
    ensures 1 <= n <= MAX_LIMIT
    ensures 1 <= limit <= MAX_LIMIT ==> n == limit
    ensures (limit > 5000 ==> n == 5000) && (limit <= 0 ==> n == 500)
  {
    if limit <= 0 then DEFAULT_LIMIT else if limit > MAX_LIMIT then MAX_LIMIT else limit
  }

  /** StreamReplayQuery without its Since filter. */
  datatype Query = Query(resumeToken: string, lastSeq: int, limit: int)

  /** StreamReplayResult without its token. The missed range is meaningful only when `truncated`. */
  datatype Page = Page(events: Run, earliest: nat, latest: nat, next: nat, hasMore: bool,
                       truncated: bool, missedFrom: nat, missedTo: nat)

  /** StreamReplayResult */
  datatype Reply = Reply(page: Page, resumeToken: string)

  /** resolveReplayCursor: the larger of last_seq and the token's position. */
  function ResolveCursor(request: string, query: Query): (r: Result<nat>) {
    var last: nat := if query.lastSeq < 0 then 0 else query.lastSeq;
    if Trim(query.resumeToken) == "" then Ok(last)
    else
      match StreamToken.Decode(query.resumeToken)
      case Err(e) => Err(e)
      case Ok((id, n)) =>
        if id != "" && id != request then Err("resume token request_id mismatch")
        else Ok(if n > last then n else last)
  }

  /** MIN(seq), with 0 for no row. */
  function FirstNum(run: Run): nat {
    if run == [] then 0 else run[0].num
  }

  /** LIMIT n */
  function Take(rows: Run, n: nat): Run {
    if |rows| <= n then rows else rows[..n]
  }

  /** SELECT ... WHERE seq > after ORDER BY seq LIMIT n */
  function SelectAfter(run: Run, after: nat, n: nat): Run {
    Take(Filter(run, After(after)), n)
  }

  /** The cursor of a page: its last event, or the old cursor capped by the last stored number. */
  function NextNum(events: Run, latest: nat, last: nat): nat {
    if events != [] then LastNum(events)
    else if latest > 0 && last > latest then latest
    else last
  }

  /** replayLocked, once the cursor is resolved. */
  function ReplayFrom(run: Run, last: nat, limit: int): Page {
    var n := NormalLimit(limit);
    var rows := SelectAfter(run, last, n + 1);
    var events := Take(rows, n);
    var first, latest := FirstNum(run), LastNum(run);
    var truncated := first > 0 && last + 1 < first;
    Page(events, first, latest, NextNum(events, latest, last), |rows| > n, truncated,
         if truncated then last + 1 else 0, if truncated then first - 1 else 0)
  }

  /** A page carries the token of its own cursor. */
  function ReplyWith(request: string, page: Page): Reply {
    Reply(page, StreamToken.Encode(request, page.next))
  }

  // ---- what a consumer learns ----

  /** One thing a consumer is told: an event, or that a range of numbers is gone. */
  datatype Item = Got(event: Event) | Missed(from: nat, to: nat)

  function Gots(events: Run): seq<Item> {
    if events == [] then [] else [Got(events[0])] + Gots(events[1..])
  }

  function PageItems(page: Page): seq<Item> {
    (if page.truncated then [Missed(page.missedFrom, page.missedTo)] else []) + Gots(page.events)
  }

  /** The items report the numbers after `from` up to `to` one after the other, each exactly once: either the very
      event that was issued under that number, or as part of one missed range. */
  ghost predicate Tiles(items: seq<Item>, issued: Run, from: nat, to: nat) {
    if items == [] then from == to
    else
      match items[0]
      case Got(e) => from < |issued| && e == issued[from] && Tiles(items[1..], issued, from + 1, to)
      case Missed(a, b) => a == from + 1 && a <= b <= |issued| && Tiles(items[1..], issued, b, to)
  }

  predicate Covers(item: Item, n: nat) {
    match item
    case Got(e) => e.num == n
    case Missed(a, b) => a <= n <= b
  }

  /** The log of a request: everything ever issued, numbered from 1. */
  ghost predicate IsLog(issued: Run, request: string) {
    Contiguous(issued, request) && (issued != [] ==> issued[0].num == 1)
  }

  lemma {:induction false} TilesExactlyOnce(items: seq<Item>, issued: Run, request: string, from: nat, to: nat, n: nat)
    requires IsLog(issued, request) && Tiles(items, issued, from, to)
    ensures from <= to
    ensures from < n <= to ==> exists i :: 0 <= i < |items| && Covers(items[i], n) && (items[i].Got? ==> n <= |issued| && items[i].event == issued[n - 1])
    ensures forall i, j :: 0 <= i < j < |items| && Covers(items[i], n) ==> !Covers(items[j], n)
    ensures n <= from || to < n ==> forall i :: 0 <= i < |items| ==> !Covers(items[i], n)
  {
    if items != [] {
      var mid := if items[0].Got? then from + 1 else items[0].to;
      if items[0].Got? { ContiguousAt(issued, request, from); }
      TilesExactlyOnce(items[1..], issued, request, mid, to, n);
      forall i | 1 <= i < |items| ensures items[i] == items[1..][i - 1] {}
      if mid < n <= to {
        var i :| 0 <= i < |items[1..]| && Covers(items[1..][i], n) && (items[1..][i].Got? ==> n <= |issued| && items[1..][i].event == issued[n - 1]);
        assert items[i + 1] == items[1..][i];
      } else if from < n <= to {
        assert Covers(items[0], n);
      }
    }
  }

  lemma {:induction false} TilesConcat(a: seq<Item>, b: seq<Item>, issued: Run, from: nat, mid: nat, to: nat)
    requires Tiles(a, issued, from, mid) && Tiles(b, issued, mid, to)
    ensures Tiles(a + b, issued, from, to)
  {
    if a == [] {
      assert a + b == b;
    } else {
      assert (a + b)[1..] == a[1..] + b;
      TilesConcat(a[1..], b, issued, if a[0].Got? then from + 1 else a[0].to, mid, to);
    }
  }

  lemma {:induction false} TilesGrow(items: seq<Item>, issued: Run, issued': Run, from: nat, to: nat)
    requires Tiles(items, issued, from, to) && issued <= issued'
    ensures Tiles(items, issued', from, to)
  {
    if items != [] {
      TilesGrow(items[1..], issued, issued', if items[0].Got? then from + 1 else items[0].to, to);
    }
  }

  lemma {:induction false} SliceTiles(issued: Run, from: nat, to: nat)
    requires from <= to <= |issued|
    ensures Tiles(Gots(issued[from..to]), issued, from, to)
    decreases |issued| - from
  {
    if from < to {
      SliceTiles(issued, from + 1, to);
      assert issued[from..to][1..] == issued[from + 1..to];
    }
  }

  // ---- a page tells everything up to its cursor ----

  /** The number before the first one that a replay after `last` can still return. */
  function StartOf(run: Run, last: nat): nat {
    if last + 1 < FirstNum(run) then FirstNum(run) - 1 else last
  }

  lemma {:induction false} SliceAfter(issued: Run, base: nat, request: string, last: nat)
    requires IsLog(issued, request) && base < |issued| && last <= |issued|
    ensures Filter(issued[base..], After(last)) == issued[if last < base then base else last..]
  {
    var run, keep := issued[base..], After(last);
    var cut := if last < base then 0 else last - base;
    forall i | 0 <= i < |run| ensures keep(run[i]) <==> i >= cut { ContiguousAt(issued, request, base + i); }
    FilterCut(run, keep, cut);
  }

  /** The stored rows are the end of the log. */
  lemma {:induction false} RunIsEnd(issued: Run, run: Run, request: string)
    requires IsLog(issued, request) && IsSuffix(run, issued) && run != []
    ensures |run| <= |issued| && run == issued[|issued| - |run|..]
    ensures FirstNum(run) == |issued| - |run| + 1 && LastNum(run) == |issued|
  {
    SuffixSlice(run, issued);
    var base := |issued| - |run|;
    ContiguousAt(issued, request, base);
    ContiguousAt(issued, request, |issued| - 1);
    assert run[0] == issued[base] && run[|run| - 1] == issued[|issued| - 1];
  }

  /** The stored rows end at the last issued number, and those after a number are a slice of the log. */
  lemma {:induction false} SelectIsSlice(issued: Run, run: Run, request: string, last: nat)
    requires IsLog(issued, request) && IsSuffix(run, issued) && last <= |issued| && run != []
    ensures StartOf(run, last) <= |issued|
    ensures Filter(run, After(last)) == issued[StartOf(run, last)..]
    ensures LastNum(run) == |issued|
  {
    RunIsEnd(issued, run, request);
    SliceAfter(issued, |issued| - |run|, request, last);
  }

  /** The events of a page are the slice of the log between its start and its cursor. */
  lemma {:induction false} PageEvents(issued: Run, run: Run, request: string, last: nat, limit: int)
    requires IsLog(issued, request) && IsSuffix(run, issued) && last <= |issued| && run != []
    ensures var page := ReplayFrom(run, last, limit);
            && StartOf(run, last) <= page.next <= |issued|
            && page.events == issued[StartOf(run, last)..page.next]
            && (!page.hasMore ==> page.next == |issued|)
            && (page.hasMore ==> |page.events| == NormalLimit(limit))
  {
    SelectIsSlice(issued, run, request, last);
    var page := ReplayFrom(run, last, limit);
    FirstRows(run, last, NormalLimit(limit));
    assert page.events == Take(issued[StartOf(run, last)..], NormalLimit(limit));
    SliceEnd(issued, request, StartOf(run, last), NormalLimit(limit));
  }

  lemma {:induction false} SliceEnd(issued: Run, request: string, start: nat, n: nat)
    requires IsLog(issued, request) && start <= |issued|
    ensures var events := Take(issued[start..], n);
            && events == issued[start..start + |events|]
            && (events != [] ==> LastNum(events) == start + |events|)
  {
    var events := Take(issued[start..], n);
    if events != [] {
      ContiguousAt(issued, request, start + |events| - 1);
      assert events[|events| - 1] == issued[start + |events| - 1];
    }
  }

  lemma {:induction false} FirstRows(run: Run, last: nat, n: nat)
    ensures var all := Filter(run, After(last));
            && (|SelectAfter(run, last, n + 1)| > n <==> |all| > n)
            && Take(SelectAfter(run, last, n + 1), n) == Take(all, n)
  {}

  lemma {:induction false} OneMissed(issued: Run, from: nat, to: nat)
    requires from < to <= |issued|
    ensures Tiles([Missed(from + 1, to)], issued, from, to)
  {
    assert [Missed(from + 1, to)][1..] == [];
  }

  /** A page from an issued cursor reports every number up to the page's own cursor; a page that says there is no more
      reaches the last issued number unless nothing at all is stored. */
  lemma {:induction false} PageTiles(issued: Run, run: Run, request: string, last: nat, limit: int)
    requires IsLog(issued, request) && IsSuffix(run, issued) && last <= |issued|
    ensures var page := ReplayFrom(run, last, limit);
            && last <= page.next <= |issued|
            && Tiles(PageItems(page), issued, last, page.next)
            && (!page.hasMore ==> page.next == if run == [] then last else |issued|)
            && (page.hasMore ==> |page.events| == NormalLimit(limit))
  {
    var page := ReplayFrom(run, last, limit);
    if run != [] {
      PageEvents(issued, run, request, last, limit);
      var start := StartOf(run, last);
      SliceTiles(issued, start, page.next);
      if page.truncated {
        OneMissed(issued, last, start);
        TilesConcat([Missed(last + 1, start)], Gots(page.events), issued, last, start, page.next);
      } else {
        assert [] + Gots(page.events) == Gots(page.events);
      }
    }
  }

  // ---- where a page starts, and what it says about the store ----

  /** Without a token a page starts behind last_seq, at 0 for a negative one. */
  lemma {:induction false} WithoutToken(request: string, query: Query)
    requires AllSpace(query.resumeToken)
    ensures ResolveCursor(request, query) == Ok(if query.lastSeq < 0 then 0 else query.lastSeq)
  {}

  /** With the token of the request a page starts behind the later of the two positions. */
  lemma {:induction false} WithToken(request: string, n: nat, lastSeq: int, limit: int)
    requires Trim(request) == request != "" && n <= MAX_INT64
    ensures ResolveCursor(request, Query(StreamToken.Encode(request, n), lastSeq, limit)) == Ok(if lastSeq > n then lastSeq else n)
  {
    StreamToken.RoundTrip(request, n);
    TokenIsText(request, n);
  }

  /** The token of another request is refused. */
  lemma {:induction false} OtherToken(request: string, other: string, n: nat, lastSeq: int, limit: int)
    requires Trim(other) != "" && Trim(other) != request && n <= MAX_INT64
    ensures ResolveCursor(request, Query(StreamToken.Encode(other, n), lastSeq, limit)).Err?
  {
    StreamToken.RoundTrip(other, n);
    TokenIsText(other, n);
  }

  lemma {:induction false} TokenIsText(request: string, n: nat)
    requires Trim(request) != ""
    ensures Trim(StreamToken.Encode(request, n)) != ""
  {
    var t := StreamToken.Encode(request, n);
    assert t[0] == Trim(request)[0] && !IsSpace(t[0]);
  }

  /** So a page asked for by number tells everything from that number on. */
  lemma {:induction false} PageBehind(issued: Run, run: Run, request: string, query: Query)
    requires IsLog(issued, request) && IsSuffix(run, issued) && AllSpace(query.resumeToken) && 0 <= query.lastSeq <= |issued|
    ensures ResolveCursor(request, query) == Ok(query.lastSeq)
    ensures var page := ReplayFrom(run, query.lastSeq, query.limit); Tiles(PageItems(page), issued, query.lastSeq, page.next)
  {
    WithoutToken(request, query);
    PageTiles(issued, run, request, query.lastSeq, query.limit);
  }

  /** The bounds of a page are those of the rows stored; without any they are 0. */
  lemma {:induction false} PageBounds(issued: Run, run: Run, request: string, last: nat, limit: int)
    requires IsLog(issued, request) && IsSuffix(run, issued)
    ensures var page := ReplayFrom(run, last, limit);
            if run == [] then page.earliest == 0 && page.latest == 0
            else page.earliest == |issued| - |run| + 1 && page.latest == |issued|
  {
    if run != [] { RunIsEnd(issued, run, request); }
  }

  /** A cursor beyond the last stored number is taken back to it. */
  lemma {:induction false} BeyondTheEnd(issued: Run, run: Run, request: string, last: nat, limit: int)
    requires IsLog(issued, request) && IsSuffix(run, issued) && run != [] && last > |issued|
    ensures var page := ReplayFrom(run, last, limit); page.events == [] && !page.hasMore && !page.truncated && page.next == |issued|
  {
    RunIsEnd(issued, run, request);
    forall e | e in run ensures !After(last)(e) {
      var i :| 0 <= i < |run| && run[i] == e;
      ContiguousAt(issued, request, |issued| - |run| + i);
      assert run[i] == issued[|issued| - |run| + i];
      ContiguousAt(issued, request, |issued| - 1);
    }
    FilterNone(run, After(last));
  }

  lemma {:induction false} FilterNone(run: Run, keep: Event -> bool)
    requires forall e :: e in run ==> !keep(e)
    ensures Filter(run, keep) == []
  {
    if run != [] { FilterNone(run[1..], keep); }
  }
}
