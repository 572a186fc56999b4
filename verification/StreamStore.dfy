/** The command_stream_events table of the stream recorder and its three retention deletes.

    The table is held grouped by request_id, each group in the order of the primary key (request_id, seq). */
module StreamStore {
  import opened Text
  import Ranking

  datatype Body =
    | Marker(kind: string, text: string)
    | Output(stream: string, data: string, chunkSeq: int, final: bool, exitCode: Option<int>)

  datatype Event = Event(request: string, num: nat, body: Body, createdAt: int)

  type Run = seq<Event>
  type Table = map<string, Run>

  function RunOf(t: Table, request: string): Run {
    if request in t then t[request] else []
  }

  datatype Retention = Retention(maxPerRequest: int, maxTotal: int, maxAge: int)

  const DEFAULT_MAX_PER_REQUEST := 2000
  const DEFAULT_MAX_TOTAL := 100000
  const DEFAULT_MAX_AGE := 24 * 60 * 60 * 1_000_000_000

  /** normalizeStreamRetention: every limit is on. */
  function Normalize(cfg: Retention): (r: Retention)
    ensures Active(r)
    ensures cfg.maxPerRequest > 0 ==> r.maxPerRequest == cfg.maxPerRequest
    ensures cfg.maxTotal > 0 ==> r.maxTotal == cfg.maxTotal
    ensures cfg.maxAge > 0 ==> r.maxAge == cfg.maxAge
    ensures cfg == Retention(0, 0, 0) ==> r == Retention(2000, 100_000, 86_400_000_000_000)
  {
    Retention(
      if cfg.maxPerRequest <= 0 then DEFAULT_MAX_PER_REQUEST else cfg.maxPerRequest,
      if cfg.maxTotal <= 0 then DEFAULT_MAX_TOTAL else cfg.maxTotal,
      if cfg.maxAge <= 0 then DEFAULT_MAX_AGE else cfg.maxAge)
  }

  predicate Active(r: Retention) {
    r.maxPerRequest > 0 && r.maxTotal > 0 && r.maxAge > 0
  }

  // ---- what the table keeps ----

  /** The rows of a request are a contiguous run of numbers, stamped in the order of the numbers. */
  ghost predicate Contiguous(run: Run, request: string) {
    run != [] ==>
      && run[0].request == request
      && (|run| > 1 ==> run[1].num == run[0].num + 1 && run[0].createdAt <= run[1].createdAt)
      && Contiguous(run[1..], request)
  }

  lemma {:induction false} ContiguousAt(run: Run, request: string, i: nat)
    requires Contiguous(run, request) && i < |run|
    ensures run[i].request == request && run[i].num == run[0].num + i && run[0].createdAt <= run[i].createdAt
  {
    if i > 0 { ContiguousAt(run[1..], request, i - 1); }
  }

  lemma {:induction false} ContiguousOrder(run: Run, request: string, i: nat, j: nat)
    requires Contiguous(run, request) && i <= j < |run|
    ensures run[i].request == run[j].request == request && run[j].num - run[i].num == j - i && run[i].createdAt <= run[j].createdAt
  {
    if i == 0 {
      ContiguousAt(run, request, j);
    } else {
      ContiguousOrder(run[1..], request, i - 1, j - 1);
    }
  }

  lemma {:induction false} ContiguousAppend(run: Run, e: Event, request: string)
    requires Contiguous(run, request) && e.request == request
    requires run != [] ==> e.num == run[|run| - 1].num + 1 && run[|run| - 1].createdAt <= e.createdAt
    ensures Contiguous(run + [e], request)
  {
    if run != [] {
      ContiguousAppend(run[1..], e, request);
      assert (run + [e])[1..] == run[1..] + [e];
    }
  }

  ghost predicate Valid(t: Table) {
    forall r :: r in t ==> Contiguous(t[r], r)
  }

  ghost predicate IsSuffix(a: Run, b: Run) {
    a == b || (b != [] && IsSuffix(a, b[1..]))
  }

  lemma {:induction false} SuffixSlice(a: Run, b: Run)
    requires IsSuffix(a, b)
    ensures |a| <= |b| && a == b[|b| - |a|..]
  {
    if a != b { SuffixSlice(a, b[1..]); }
  }

  lemma {:induction false} SliceSuffix(b: Run, d: nat)
    requires d <= |b|
    ensures IsSuffix(b[d..], b)
  {
    if d > 0 {
      SliceSuffix(b[1..], d - 1);
      assert b[1..][d - 1..] == b[d..];
    }
  }

  lemma {:induction false} SuffixTransitive(a: Run, b: Run, c: Run)
    requires IsSuffix(a, b) && IsSuffix(b, c)
    ensures IsSuffix(a, c)
    decreases |c|
  {
    if b != c { SuffixTransitive(a, b, c[1..]); }
  }

  lemma {:induction false} SuffixContiguous(a: Run, b: Run, request: string)
    requires IsSuffix(a, b) && Contiguous(b, request)
    ensures Contiguous(a, request)
  {
    if a != b { SuffixContiguous(a, b[1..], request); }
  }

  // ---- DELETE ----

  /** The rows of one group that satisfy `keep`, in order. */
  function Filter(run: Run, keep: Event -> bool): Run {
    if run == [] then []
    else (if keep(run[0]) then [run[0]] else []) + Filter(run[1..], keep)
  }

  /** DELETE ... WHERE NOT keep */
  function Retain(t: Table, keep: Event -> bool): Table {
    map r | r in t :: Filter(t[r], keep)
  }

  lemma {:induction false} FilterMembers(run: Run, keep: Event -> bool, e: Event)
    ensures e in Filter(run, keep) <==> e in run && keep(e)
  {
    if run != [] { FilterMembers(run[1..], keep, e); }
  }

  lemma {:induction false} FilterAll(run: Run, keep: Event -> bool)
    requires forall e :: e in run ==> keep(e)
    ensures Filter(run, keep) == run
  {
    if run != [] { FilterAll(run[1..], keep); }
  }

  /** Once a row is kept, so is every later row of the run. */
  ghost predicate KeepsTail(run: Run, keep: Event -> bool) {
    forall i, j :: 0 <= i <= j < |run| && keep(run[i]) ==> keep(run[j])
  }

  lemma {:induction false} FilterSuffix(run: Run, keep: Event -> bool)
    requires KeepsTail(run, keep)
    ensures IsSuffix(Filter(run, keep), run)
  {
    if run != [] {
      if keep(run[0]) {
        forall e | e in run ensures keep(e) {
          var j :| 0 <= j < |run| && run[j] == e;
        }
        FilterAll(run, keep);
      } else {
        FilterSuffix(run[1..], keep);
        assert Filter(run, keep) == Filter(run[1..], keep);
      }
    }
  }

  lemma {:induction false} FilterCut(run: Run, keep: Event -> bool, cut: nat)
    requires cut <= |run| && forall i :: 0 <= i < |run| ==> (keep(run[i]) <==> i >= cut)
    ensures Filter(run, keep) == run[cut..]
  {
    if cut == 0 {
      forall e | e in run ensures keep(e) { var i :| 0 <= i < |run| && run[i] == e; }
      FilterAll(run, keep);
    } else {
      FilterCut(run[1..], keep, cut - 1);
    }
  }

  // ---- the order of the total delete ----

  /** ORDER BY created_at ASC, request_id ASC, seq ASC */
  predicate Earlier(x: Event, y: Event) {
    || x.createdAt < y.createdAt
    || (x.createdAt == y.createdAt && (StrLess(x.request, y.request) || (x.request == y.request && x.num < y.num)))
  }

  lemma {:induction false} EarlierTransitive(x: Event, y: Event, z: Event)
    requires Earlier(x, y) && Earlier(y, z)
    ensures Earlier(x, z)
  {
    if StrLess(x.request, y.request) && StrLess(y.request, z.request) {
      StrLessTransitive(x.request, y.request, z.request);
    }
  }

  lemma {:induction false} EarlierTotal(x: Event, y: Event)
    ensures !(Earlier(x, y) && Earlier(y, x))
    ensures Earlier(x, y) || Earlier(y, x) || (x.request == y.request && x.num == y.num)
  {
    StrLessTotal(x.request, y.request);
  }

  /** All rows of the table; COUNT(*) is the size of this set. */
  function Rows(t: Table): set<Event> {
    set r, i | r in t && 0 <= i < |t[r]| :: t[r][i]
  }

  /** Each group holds its own rows, numbered one after the other: what the primary key and the counter give. */
  ghost predicate Keyed(t: Table) {
    forall r, i :: r in t && 0 <= i < |t[r]| ==> t[r][i].request == r && t[r][i].num == t[r][0].num + i
  }

  lemma {:induction false} ValidKeyed(t: Table)
    requires Valid(t)
    ensures Keyed(t)
  {
    forall r, i | r in t && 0 <= i < |t[r]| ensures t[r][i].request == r && t[r][i].num == t[r][0].num + i {
      ContiguousAt(t[r], r, i);
    }
  }

  lemma {:induction false} RowIn(t: Table, e: Event)
    requires Keyed(t)
    ensures e in Rows(t) <==> e in RunOf(t, e.request)
  {
    if e in Rows(t) {
      var r, i :| r in t && 0 <= i < |t[r]| && t[r][i] == e;
    }
    if e in RunOf(t, e.request) {
      var i :| 0 <= i < |t[e.request]| && t[e.request][i] == e;
    }
  }

  lemma {:induction false} SameKeySameRow(t: Table, x: Event, y: Event)
    requires Keyed(t) && x in Rows(t) && y in Rows(t) && x.request == y.request && x.num == y.num
    ensures x == y
  {
    RowIn(t, x);
    RowIn(t, y);
    var run := t[x.request];
    var i :| 0 <= i < |run| && run[i] == x;
    var j :| 0 <= j < |run| && run[j] == y;
  }

  lemma {:induction false} EarlierStrictTotal(t: Table)
    requires Keyed(t)
    ensures Ranking.StrictTotalOn(Earlier, Rows(t))
  {
    forall x | x in Rows(t) ensures !Earlier(x, x) { EarlierTotal(x, x); }
    forall x, y | x in Rows(t) && y in Rows(t) && x != y ensures Earlier(x, y) || Earlier(y, x) {
      EarlierTotal(x, y);
      if x.request == y.request && x.num == y.num { SameKeySameRow(t, x, y); }
    }
    forall x, y, z | x in Rows(t) && y in Rows(t) && z in Rows(t) && Earlier(x, y) && Earlier(y, z) ensures Earlier(x, z) {
      EarlierTransitive(x, y, z);
    }
  }

  // ---- pruneLocked ----

  /** MAX(seq) of a group, with 0 for an empty one. */
  function LastNum(run: Run): nat {
    if run == [] then 0 else run[|run| - 1].num
  }

  // The conditions the deletes and selects keep.
  function Since(cutoff: int): Event -> bool { (e: Event) => e.createdAt >= cutoff }
  function After(n: int): Event -> bool { (e: Event) => e.num > n }
  function UnderCap(t: Table, cap: int): Event -> bool { (e: Event) => e.num > LastNum(RunOf(t, e.request)) - cap }
  function Outside(gone: set<Event>): Event -> bool { (e: Event) => e !in gone }

  /** DELETE ... WHERE created_at < cutoff */
  function PruneAge(t: Table, cutoff: int): Table {
    Retain(t, Since(cutoff))
  }

  /** DELETE ... WHERE request_id = ? AND seq <= MAX(seq) - cap, for every request */
  function PrunePerRequest(t: Table, cap: int): Table {
    Retain(t, UnderCap(t, cap))
  }

  /** The rows that ORDER BY ... LIMIT COUNT(*) - cap selects, when COUNT(*) exceeds the cap. */
  ghost predicate IsExcess(t: Table, gone: set<Event>, cap: int) {
    |Rows(t)| > cap && Ranking.IsFirst(Earlier, Rows(t), gone, |Rows(t)| - cap)
  }

  /** DELETE those rows. */
  ghost function PruneTotal(t: Table, cap: int): Table {
    if gone :| IsExcess(t, gone, cap) then Retain(t, Outside(gone)) else t
  }

  // ---- every delete removes the oldest rows of each request, and nothing else ----

  /** Each group of `t'` is a suffix of the same group of `t`. */
  ghost predicate DropsOldest(t: Table, t': Table) {
    t'.Keys == t.Keys && forall r :: r in t ==> IsSuffix(t'[r], t[r])
  }

  lemma {:induction false} RetainDropsOldest(t: Table, keep: Event -> bool)
    requires Valid(t)
    requires forall r :: r in t ==> KeepsTail(t[r], keep)
    ensures DropsOldest(t, Retain(t, keep)) && Valid(Retain(t, keep))
  {
    forall r | r in t ensures IsSuffix(Retain(t, keep)[r], t[r]) && Contiguous(Retain(t, keep)[r], r) {
      FilterSuffix(t[r], keep);
      SuffixContiguous(Filter(t[r], keep), t[r], r);
    }
  }

  lemma {:induction false} PruneAgeSuffix(t: Table, cutoff: int)
    requires Valid(t)
    ensures DropsOldest(t, PruneAge(t, cutoff)) && Valid(PruneAge(t, cutoff))
  {
    var keep := Since(cutoff);
    forall r | r in t ensures KeepsTail(t[r], keep) {
      forall i, j | 0 <= i <= j < |t[r]| && keep(t[r][i]) ensures keep(t[r][j]) {
        ContiguousOrder(t[r], r, i, j);
      }
    }
    RetainDropsOldest(t, keep);
  }

  lemma {:induction false} PrunePerRequestSuffix(t: Table, cap: int)
    requires Valid(t)
    ensures DropsOldest(t, PrunePerRequest(t, cap)) && Valid(PrunePerRequest(t, cap))
  {
    var keep := UnderCap(t, cap);
    forall r | r in t ensures KeepsTail(t[r], keep) {
      forall i, j | 0 <= i <= j < |t[r]| && keep(t[r][i]) ensures keep(t[r][j]) {
        ContiguousOrder(t[r], r, i, j);
      }
    }
    RetainDropsOldest(t, keep);
  }

  lemma {:induction false} PruneTotalSuffix(t: Table, cap: int)
    requires Valid(t)
    ensures DropsOldest(t, PruneTotal(t, cap)) && Valid(PruneTotal(t, cap))
  {
    forall gone | IsExcess(t, gone, cap)
      ensures DropsOldest(t, Retain(t, Outside(gone))) && Valid(Retain(t, Outside(gone)))
    {
      DeleteExcessSuffix(t, gone, cap);
    }
  }

  lemma {:induction false} DeleteExcessSuffix(t: Table, gone: set<Event>, cap: int)
    requires Valid(t) && IsExcess(t, gone, cap)
    ensures DropsOldest(t, Retain(t, Outside(gone))) && Valid(Retain(t, Outside(gone)))
  {
    var keep := Outside(gone);
    forall r | r in t ensures KeepsTail(t[r], keep) {
      forall i, j | 0 <= i <= j < |t[r]| && keep(t[r][i]) ensures keep(t[r][j]) {
        var x, y := t[r][i], t[r][j];
        ContiguousOrder(t[r], r, i, j);
        StrLessTotal(x.request, y.request);
        assert x in Rows(t) && y in Rows(t) && !Earlier(y, x);
      }
    }
    RetainDropsOldest(t, keep);
  }

  lemma {:induction false} DropsOldestTransitive(t: Table, t': Table, t'': Table)
    requires DropsOldest(t, t') && DropsOldest(t', t'')
    ensures DropsOldest(t, t'')
  {
    forall r | r in t ensures IsSuffix(t''[r], t[r]) { SuffixTransitive(t''[r], t'[r], t[r]); }
  }

  // ---- and the table ends within its bounds ----

  lemma {:induction false} RetainRows(t: Table, keep: Event -> bool, e: Event)
    requires Valid(t) && Valid(Retain(t, keep))
    ensures e in Rows(Retain(t, keep)) <==> e in Rows(t) && keep(e)
  {
    ValidKeyed(t);
    ValidKeyed(Retain(t, keep));
    RowIn(t, e);
    RowIn(Retain(t, keep), e);
    FilterMembers(RunOf(t, e.request), keep, e);
  }

  lemma {:induction false} DeleteExcessSize(t: Table, gone: set<Event>, cap: int)
    requires Valid(t) && IsExcess(t, gone, cap)
    ensures |Rows(Retain(t, Outside(gone)))| == cap
  {
    var keep := Outside(gone);
    DeleteExcessSuffix(t, gone, cap);
    forall e ensures e in Rows(Retain(t, keep)) <==> e in Rows(t) - gone { RetainRows(t, keep, e); }
    assert Rows(Retain(t, keep)) == Rows(t) - gone;
    assert Rows(t) == (Rows(t) - gone) + gone;
  }

  /** The total delete always finds its rows and leaves exactly the cap. */
  lemma {:induction false} PruneTotalSize(t: Table, cap: nat)
    requires Valid(t)
    ensures |Rows(PruneTotal(t, cap))| == if |Rows(t)| <= cap then |Rows(t)| else cap
  {
    if |Rows(t)| > cap {
      ValidKeyed(t);
      EarlierStrictTotal(t);
      Ranking.FirstExists(Earlier, Rows(t), |Rows(t)| - cap);
      var gone :| Ranking.IsFirst(Earlier, Rows(t), gone, |Rows(t)| - cap);
      assert IsExcess(t, gone, cap);
    }
    forall gone | IsExcess(t, gone, cap) ensures |Rows(Retain(t, Outside(gone)))| == cap {
      DeleteExcessSize(t, gone, cap);
    }
  }

  lemma {:induction false} PruneAgeBound(t: Table, cutoff: int, request: string, e: Event)
    ensures e in RunOf(PruneAge(t, cutoff), request) <==> e in RunOf(t, request) && e.createdAt >= cutoff
  {
    FilterMembers(RunOf(t, request), Since(cutoff), e);
  }

  lemma {:induction false} PrunePerRequestBound(t: Table, cap: nat, request: string)
    requires Valid(t)
    ensures |RunOf(PrunePerRequest(t, cap), request)| <= cap
  {
    PrunePerRequestSuffix(t, cap);
    if request in t {
      FirstKept(t, cap, request);
      KeptRun(t[request], PrunePerRequest(t, cap)[request], request, cap);
    }
  }

  lemma {:induction false} FirstKept(t: Table, cap: int, request: string)
    requires Valid(t) && request in t
    ensures var run' := PrunePerRequest(t, cap)[request]; run' != [] ==> run'[0].num > LastNum(t[request]) - cap
  {
    var run' := PrunePerRequest(t, cap)[request];
    if run' != [] {
      FilterMembers(t[request], UnderCap(t, cap), run'[0]);
      var i :| 0 <= i < |t[request]| && t[request][i] == run'[0];
      ContiguousAt(t[request], request, i);
    }
  }

  lemma {:induction false} KeptRun(run: Run, run': Run, request: string, cap: nat)
    requires Contiguous(run, request) && IsSuffix(run', run)
    requires run' != [] ==> run'[0].num > LastNum(run) - cap
    ensures |run'| <= cap
  {
    SuffixContiguous(run', run, request);
    SuffixSlice(run', run);
    if run' != [] { ContiguousAt(run', request, |run'| - 1); }
  }

  // ---- the whole pass ----

  /** The rows left out by the total delete are determined by the order. */
  lemma {:induction false} PruneTotalIs(t: Table, gone: set<Event>, cap: int)
    requires Keyed(t) && IsExcess(t, gone, cap)
    ensures PruneTotal(t, cap) == Retain(t, Outside(gone))
  {
    EarlierStrictTotal(t);
    forall other | IsExcess(t, other, cap) ensures other == gone {
      Ranking.FirstUnique(Earlier, Rows(t), other, gone, |Rows(t)| - cap);
    }
  }

  /** INSERT */
  function Inserted(t: Table, e: Event): Table {
    t[e.request := RunOf(t, e.request) + [e]]
  }

  datatype Pass = ByAge(cutoff: int) | ByRequest(cap: int) | ByTotal(cap: int)

  ghost function PassOf(t: Table, pass: Pass): Table {
    match pass
    case ByAge(cutoff) => PruneAge(t, cutoff)
    case ByRequest(cap) => PrunePerRequest(t, cap)
    case ByTotal(cap) => PruneTotal(t, cap)
  }

  ghost predicate DidAt(t: Table, pass: Pass, t': Table, r: string) {
    RunOf(t', r) == RunOf(PassOf(t, pass), r)
  }

  /** The table is what one delete leaves of another. */
  ghost predicate Did(t: Table, pass: Pass, t': Table) {
    t'.Keys == t.Keys && forall r {:trigger DidAt(t, pass, t', r)} :: DidAt(t, pass, t', r)
  }

  lemma {:induction false} DidIs(t: Table, pass: Pass, t': Table)
    requires Did(t, pass, t')
    ensures t' == PassOf(t, pass)
  {
    assert PassOf(t, pass).Keys == t.Keys;
    forall r | r in t ensures t'[r] == PassOf(t, pass)[r] { assert DidAt(t, pass, t', r); }
  }

  lemma {:induction false} IsDid(t: Table, pass: Pass, t': Table)
    requires t' == PassOf(t, pass)
    ensures Did(t, pass, t')
  {
    assert PassOf(t, pass).Keys == t.Keys;
    forall r ensures DidAt(t, pass, t', r) {}
  }

  /** pruneLocked: by age, then by request, then by the total. */
  ghost predicate Passed(t: Table, t': Table, retention: Retention, now: int) {
    exists byAge, byRequest ::
      && Did(t, ByAge(now - retention.maxAge), byAge)
      && Did(byAge, ByRequest(retention.maxPerRequest), byRequest)
      && Did(byRequest, ByTotal(retention.maxTotal), t')
  }

  lemma {:induction false} SuffixMembers(a: Run, b: Run, e: Event)
    requires IsSuffix(a, b) && e in a
    ensures e in b
  {
    SuffixSlice(a, b);
  }

  ghost predicate Young(t: Table, cutoff: int) {
    forall r, e :: e in RunOf(t, r) ==> e.createdAt >= cutoff
  }

  ghost predicate Short(t: Table, cap: int) {
    forall r :: |RunOf(t, r)| <= cap
  }

  /** Every limit is met. */
  ghost predicate Limited(t: Table, retention: Retention, now: int) {
    Young(t, now - retention.maxAge) && Short(t, retention.maxPerRequest) && |Rows(t)| <= retention.maxTotal
  }

  lemma {:induction false} ByAgeKeeps(t: Table, t': Table, cutoff: int)
    requires Valid(t) && Did(t, ByAge(cutoff), t')
    ensures Valid(t') && DropsOldest(t, t') && Young(t', cutoff)
  {
    DidIs(t, ByAge(cutoff), t');
    PruneAgeSuffix(t, cutoff);
    forall r, e | e in RunOf(t', r) ensures e.createdAt >= cutoff { PruneAgeBound(t, cutoff, r, e); }
  }

  lemma {:induction false} ByRequestKeeps(t: Table, t': Table, cap: nat)
    requires Valid(t) && Did(t, ByRequest(cap), t')
    ensures Valid(t') && DropsOldest(t, t') && Short(t', cap)
  {
    DidIs(t, ByRequest(cap), t');
    PrunePerRequestSuffix(t, cap);
    forall r ensures |RunOf(t', r)| <= cap { PrunePerRequestBound(t, cap, r); }
  }

  lemma {:induction false} ByTotalKeeps(t: Table, t': Table, cap: nat)
    requires Valid(t) && Did(t, ByTotal(cap), t')
    ensures Valid(t') && DropsOldest(t, t') && |Rows(t')| <= cap
  {
    DidIs(t, ByTotal(cap), t');
    PruneTotalSuffix(t, cap);
    PruneTotalSize(t, cap);
  }

  lemma {:induction false} StillYoung(t: Table, t': Table, cutoff: int)
    requires DropsOldest(t, t') && Young(t, cutoff)
    ensures Young(t', cutoff)
  {
    forall r, e | e in RunOf(t', r) ensures e.createdAt >= cutoff {
      SuffixMembers(t'[r], t[r], e);
      assert e in RunOf(t, r);
    }
  }

  lemma {:induction false} StillShort(t: Table, t': Table, cap: int)
    requires DropsOldest(t, t') && Short(t, cap)
    ensures Short(t', cap)
  {
    forall r ensures |RunOf(t', r)| <= cap {
      if r in t' { SuffixSlice(t'[r], t[r]); }
      assert |RunOf(t, r)| <= cap;
    }
  }

  /** The pass removes only the oldest rows of each request, and leaves every limit met. */
  lemma {:induction false} PassedKeeps(t: Table, t': Table, retention: Retention, now: int)
    requires Valid(t) && Active(retention) && Passed(t, t', retention, now)
    ensures Valid(t') && DropsOldest(t, t') && Limited(t', retention, now)
  {
    var cutoff := now - retention.maxAge;
    var byAge, byRequest :|
      && Did(t, ByAge(cutoff), byAge)
      && Did(byAge, ByRequest(retention.maxPerRequest), byRequest)
      && Did(byRequest, ByTotal(retention.maxTotal), t');
    ByAgeKeeps(t, byAge, cutoff);
    ByRequestKeeps(byAge, byRequest, retention.maxPerRequest);
    ByTotalKeeps(byRequest, t', retention.maxTotal);
    DropsOldestTransitive(byAge, byRequest, t');
    DropsOldestTransitive(t, byAge, t');
    StillYoung(byAge, t', cutoff);
    StillShort(byRequest, t', retention.maxPerRequest);
  }

  // ---- and nothing that fits is deleted ----

  /** The per-request delete keeps the newest rows of a request, exactly as many as the cap allows. */
  lemma {:induction false} PerRequestKeepsNewest(t: Table, cap: nat, request: string)
    requires Valid(t)
    ensures var run := RunOf(t, request);
            RunOf(PrunePerRequest(t, cap), request) == if |run| <= cap then run else run[|run| - cap..]
  {
    if request in t {
      var run, keep := t[request], UnderCap(t, cap);
      var cut := if |run| <= cap then 0 else |run| - cap;
      forall i | 0 <= i < |run| ensures keep(run[i]) <==> i >= cut {
        ContiguousAt(run, request, i);
        ContiguousAt(run, request, |run| - 1);
      }
      FilterCut(run, keep, cut);
    }
  }

  /** No row that the total delete removes is younger than one that it leaves. */
  lemma {:induction false} TotalTakesOldest(t: Table, cap: int, gone: Event, left: Event)
    requires Valid(t) && gone in Rows(t) && gone !in Rows(PruneTotal(t, cap)) && left in Rows(PruneTotal(t, cap))
    ensures gone.createdAt <= left.createdAt
  {
    PruneTotalSuffix(t, cap);
    if out :| IsExcess(t, out, cap) {
      ValidKeyed(t);
      PruneTotalIs(t, out, cap);
      RetainRows(t, Outside(out), gone);
      RetainRows(t, Outside(out), left);
      assert Earlier(gone, left);
    }
  }

  lemma {:induction false} RowsShrink(t: Table, t': Table)
    requires DropsOldest(t, t')
    ensures |Rows(t')| <= |Rows(t)|
  {
    forall e | e in Rows(t') ensures e in Rows(t) {
      var r, i :| r in t' && 0 <= i < |t'[r]| && t'[r][i] == e;
      SuffixSlice(t'[r], t[r]);
      assert t[r][|t[r]| - |t'[r]| + i] == e;
    }
    Ranking.SubsetSize(Rows(t'), Rows(t));
  }

  lemma {:induction false} YoungStays(t: Table, t': Table, cutoff: int, request: string)
    requires Did(t, ByAge(cutoff), t') && forall e :: e in RunOf(t, request) ==> e.createdAt >= cutoff
    ensures RunOf(t', request) == RunOf(t, request)
  {
    DidIs(t, ByAge(cutoff), t');
    FilterAll(RunOf(t, request), Since(cutoff));
  }

  lemma {:induction false} FewStay(t: Table, t': Table, cap: nat, request: string)
    requires Valid(t) && Did(t, ByRequest(cap), t') && |RunOf(t, request)| <= cap
    ensures RunOf(t', request) == RunOf(t, request)
  {
    DidIs(t, ByRequest(cap), t');
    PerRequestKeepsNewest(t, cap, request);
  }

  lemma {:induction false} SmallStays(t: Table, t': Table, cap: int)
    requires Did(t, ByTotal(cap), t') && |Rows(t)| <= cap
    ensures t' == t
  {
    DidIs(t, ByTotal(cap), t');
    assert forall out :: !IsExcess(t, out, cap);
  }

  /** A request that is young enough and short enough, in a table that is small enough, goes through a pass unchanged. */
  lemma {:induction false} PassKeepsWhatFits(t: Table, t': Table, retention: Retention, now: int, request: string)
    requires Valid(t) && Active(retention) && Passed(t, t', retention, now) && |Rows(t)| <= retention.maxTotal
    requires |RunOf(t, request)| <= retention.maxPerRequest
    requires forall e :: e in RunOf(t, request) ==> e.createdAt >= now - retention.maxAge
    ensures RunOf(t', request) == RunOf(t, request)
  {
    var cutoff := now - retention.maxAge;
    var byAge, byRequest :|
      && Did(t, ByAge(cutoff), byAge)
      && Did(byAge, ByRequest(retention.maxPerRequest), byRequest)
      && Did(byRequest, ByTotal(retention.maxTotal), t');
    ByAgeKeeps(t, byAge, cutoff);
    ByRequestKeeps(byAge, byRequest, retention.maxPerRequest);
    YoungStays(t, byAge, cutoff, request);
    FewStay(byAge, byRequest, retention.maxPerRequest, request);
    RowsShrink(t, byAge);
    RowsShrink(byAge, byRequest);
    SmallStays(byRequest, t', retention.maxTotal);
  }
}
