/** The federated inventory: roll-ups that add up, failover to the last good snapshot, and what the summary flags mean. */
module Federation {
  import opened Text

  datatype Source = Source(id: string, cluster: string, site: string, tenant: string, org: string, scope: string)

  datatype Probe = Probe(os: string, online: bool, cpus: int, ram: nat)

  /** FederationSourceResult, with the number of its distinct warnings. */
  datatype Reply = Reply(probes: seq<Probe>, partial: bool, warnings: nat, collectedAt: Option<int>)

  datatype Freshness = FreshnessUnknown | Fresh | Stale | Mixed
  datatype Completeness = CompletenessUnknown | Complete | Partial | NotAvailable
  datatype Failover = NoFailover | CachedSnapshot | FailoverUnavailable
  datatype Status = Healthy | Degraded | Unavailable | Unknown

  datatype Consistency = Consistency(freshness: Freshness, completeness: Completeness, degraded: bool, failover: Failover)

  datatype Summary = Summary(source: Source, status: Status, consistency: Consistency, probes: nat)

  // ---- distributions ----

  datatype Dimension = ById | ByCluster | BySite | ByTenant | ByOrg | ByScope

  type Counts = map<string, nat>

  function At(m: Counts, key: string): nat {
    if key in m then m[key] else 0
  }

  function Bump(m: Counts, key: string, n: nat): Counts {
    m[key := At(m, key) + n]
  }

  function ValueOf(d: Dimension, s: Source): string {
    match d
    case ById => s.id
    case ByCluster => s.cluster
    case BySite => s.site
    case ByTenant => s.tenant
    case ByOrg => s.org
    case ByScope => s.scope
  }

  function OsKey(p: Probe): string {
    var key := Lower(Trim(p.os));
    if key == "" then "unknown" else key
  }

  /** Two probes are counted under one system if and only if their names agree up to surrounding white space and the case of
      letters; blank ones are counted as unknown. */
  lemma {:induction false} SameSystemIff(p: Probe, q: Probe)
    ensures OsKey(p) == OsKey(q) <==> Lower(Trim(p.os)) == Lower(Trim(q.os)) || (Unnamed(p) && Unnamed(q))
    ensures AllSpace(p.os) ==> OsKey(p) == "unknown"
  {}

  predicate Unnamed(p: Probe) {
    AllSpace(p.os) || Lower(Trim(p.os)) == "unknown"
  }

  /** How many of the first `n` items fall under a key. */
  function Count<T>(items: seq<T>, n: nat, key: T -> string, v: string): nat
    requires n <= |items|
  {
    if n == 0 then 0 else Count(items, n - 1, key, v) + if key(items[n - 1]) == v then 1 else 0
  }

  /** The distribution says of every key how many of the first `n` items fall under it. */
  ghost predicate Tallies<T>(m: Counts, items: seq<T>, n: nat, key: T -> string)
    requires n <= |items|
  {
    forall v :: At(m, v) == Count(items, n, key, v)
  }

  lemma {:induction false} CountPrefix<T>(a: seq<T>, b: seq<T>, n: nat, key: T -> string, v: string)
    requires n <= |a|
    ensures Count(a + b, n, key, v) == Count(a, n, key, v)
  {
    if n > 0 { CountPrefix(a, b, n - 1, key, v); }
  }

  lemma {:induction false} CountConcat<T>(a: seq<T>, b: seq<T>, n: nat, key: T -> string, v: string)
    requires n <= |b|
    ensures Count(a + b, |a| + n, key, v) == Count(a, |a|, key, v) + Count(b, n, key, v)
  {
    if n == 0 { CountPrefix(a, b, |a|, key, v); } else { CountConcat(a, b, n - 1, key, v); }
  }

  lemma {:induction false} CountSame<T>(items: seq<T>, n: nat, key: T -> string, k: string, v: string)
    requires n <= |items| && forall x :: x in items ==> key(x) == k
    ensures Count(items, n, key, v) == if v == k then n else 0
  {
    if n > 0 { CountSame(items, n - 1, key, k, v); }
  }

  /** The sum of the entries. */
  ghost function Sum(m: Counts): nat
    decreases |m|
  {
    if m == map[] then 0
    else
      var k :| k in m;
      assert |m - {k}| < |m| by { assert (m - {k}).Keys == m.Keys - {k} && |m| == |m.Keys| && |m - {k}| == |(m - {k}).Keys|; }
      m[k] + Sum(m - {k})
  }

  lemma {:induction false} SumWithout(m: Counts, k: string)
    requires k in m
    ensures Sum(m) == m[k] + Sum(m - {k})
    decreases |m|
  {
    var j :| j in m && Sum(m) == m[j] + Sum(m - {j});
    if j != k {
      assert (m - {j}).Keys == m.Keys - {j} && |m| == |m.Keys| && |m - {j}| == |(m - {j}).Keys|;
      SumWithout(m - {j}, k);
      assert (m - {k}).Keys == m.Keys - {k} && |m - {k}| == |(m - {k}).Keys|;
      SumWithout(m - {k}, j);
      assert m - {j} - {k} == m - {k} - {j};
    }
  }

  lemma {:induction false} SumBump(m: Counts, k: string, n: nat)
    ensures Sum(Bump(m, k, n)) == Sum(m) + n
  {
    var m' := Bump(m, k, n);
    SumWithout(m', k);
    assert m' - {k} == m - {k};
    if k in m { SumWithout(m, k); } else { assert m - {k} == m; }
  }

  // ---- one source ----

  datatype Totals = Totals(probes: nat, online: nat, cpus: int, ram: nat)

  const NOTHING := Totals(0, 0, 0, 0)

  function Plus(a: Totals, b: Totals): Totals {
    Totals(a.probes + b.probes, a.online + b.online, a.cpus + b.cpus, a.ram + b.ram)
  }

  /** What one probe adds to the totals. */
  function Single(p: Probe): Totals {
    Totals(1, if p.online then 1 else 0, p.cpus, p.ram)
  }

  /** The totals of the first `n` probes. */
  function TotalsOf(probes: seq<Probe>, n: nat): Totals
    requires n <= |probes|
  {
    if n == 0 then NOTHING else Plus(TotalsOf(probes, n - 1), Single(probes[n - 1]))
  }

  /** aggregateProbeSummaries */
  method Aggregate(probes: seq<Probe>) returns (totals: Totals, byOs: Counts)
    ensures totals == TotalsOf(probes, |probes|)
    ensures Tallies(byOs, probes, |probes|, OsKey) && Sum(byOs) == |probes|
  {
    var total, online, cpus, ram := 0, 0, 0, 0;
    byOs := map[];
    for i := 0 to |probes|
      invariant total >= 0 && online >= 0 && ram >= 0 && Totals(total, online, cpus, ram) == TotalsOf(probes, i)
      invariant Tallies(byOs, probes, i, OsKey) && Sum(byOs) == i
    {
      SumBump(byOs, OsKey(probes[i]), 1);
      total := total + 1;
      if probes[i].online { online := online + 1; }
      cpus, ram := cpus + probes[i].cpus, ram + probes[i].ram;
      byOs := Bump(byOs, OsKey(probes[i]), 1);
    }
    totals := Totals(total, online, cpus, ram);
  }

  /** classifyFederationSourceConsistency for a source that can be served. */
  function Classify(r: Reply, now: int, staleAfter: int, failover: bool): (Consistency, Status) {
    var freshness :=
      if r.collectedAt.None? then FreshnessUnknown
      else
        var age := if now < r.collectedAt.value then 0 else now - r.collectedAt.value;
        if staleAfter > 0 && age > staleAfter then Stale else Fresh;
    var completeness := if r.partial || failover || freshness == Stale then Partial else Complete;
    var degraded := r.partial || r.warnings > 0 || failover || freshness == Stale;
    (Consistency(freshness, completeness, degraded, if failover then CachedSnapshot else NoFailover), if degraded then Degraded else Healthy)
  }

  /** A source is stale if and only if it has a date more than the allowed age back and ages are limited at all; it is
      complete if and only if it is neither stale, nor partial, nor a snapshot; and it is healthy if and only if it is
      complete and came without a warning. */
  lemma {:induction false} ClassifiedIff(r: Reply, now: int, staleAfter: int, failover: bool)
    ensures var (c, status) := Classify(r, now, staleAfter, failover);
            var stale := r.collectedAt.Some? && staleAfter > 0 && now - r.collectedAt.value > staleAfter;
            && (c.freshness == Stale <==> stale) && (c.freshness == Fresh <==> r.collectedAt.Some? && !stale)
            && (c.freshness == FreshnessUnknown <==> r.collectedAt.None?)
            && (c.completeness == Complete <==> !r.partial && !failover && !stale)
            && (status == Healthy <==> !r.partial && !failover && !stale && r.warnings == 0)
            && (status == Degraded <==> status != Healthy) && (c.degraded <==> status != Healthy)
            && (c.failover == CachedSnapshot <==> failover) && (c.failover == NoFailover <==> !failover)
  {}

  const NO_SOURCE := (Consistency(FreshnessUnknown, NotAvailable, true, FailoverUnavailable), Unavailable)

  /** What every summary satisfies: a source is degraded when its status says so, and a stale or failed-over one is not
      complete. */
  predicate Coherent(s: Summary) {
    && (s.consistency.degraded <==> s.status in {Degraded, Unavailable})
    && s.status in {Healthy, Degraded, Unavailable}
    && s.consistency.completeness in {Complete, Partial, NotAvailable}
    && s.consistency.freshness != Mixed
    && (s.consistency.freshness == Stale || s.consistency.failover == CachedSnapshot ==> s.consistency.completeness == Partial)
    && (s.consistency.completeness == NotAvailable <==> s.status == Unavailable)
  }

  // ---- flags over all sources ----

  datatype Health = Health(healthy: nat, degraded: nat, unavailable: nat, unknown: nat)

  function Total(h: Health): nat {
    h.healthy + h.degraded + h.unavailable + h.unknown
  }

  /** bumpHealthCounters */
  function BumpHealth(h: Health, s: Status): Health {
    match s
    case Healthy => h.(healthy := h.healthy + 1)
    case Degraded => h.(degraded := h.degraded + 1)
    case Unavailable => h.(unavailable := h.unavailable + 1)
    case Unknown => h.(unknown := h.unknown + 1)
  }

  /** computeOverallFederationHealth */
  function Overall(h: Health): Status {
    if Total(h) == 0 then Unknown
    else if h.unavailable == Total(h) then Unavailable
    else if h.unavailable > 0 || h.degraded > 0 then Degraded
    else if h.healthy > 0 then Healthy
    else Unknown
  }

  /** The counters after the first `n` sources. */
  function HealthOf(sources: seq<Summary>, n: nat): Health
    requires n <= |sources|
  {
    if n == 0 then Health(0, 0, 0, 0) else BumpHealth(HealthOf(sources, n - 1), sources[n - 1].status)
  }

  datatype Trait = Bad | Incomplete | InPart | Missing | Cached | Recent | Old

  predicate Has(s: Summary, t: Trait) {
    match t
    case Bad => s.status in {Degraded, Unavailable}
    case Incomplete => s.consistency.completeness != Complete
    case InPart => s.consistency.completeness == Partial
    case Missing => s.consistency.completeness == NotAvailable
    case Cached => s.consistency.failover == CachedSnapshot
    case Recent => s.consistency.freshness == Fresh
    case Old => s.consistency.freshness == Stale
  }

  /** How many of the first `n` sources have the trait. */
  function Number(sources: seq<Summary>, n: nat, t: Trait): nat
    requires n <= |sources|
  {
    if n == 0 then 0 else Number(sources, n - 1, t) + if Has(sources[n - 1], t) then 1 else 0
  }

  lemma {:induction false} NumberIs(sources: seq<Summary>, n: nat, t: Trait)
    requires n <= |sources|
    ensures Number(sources, n, t) <= n
    ensures Number(sources, n, t) > 0 <==> exists i :: 0 <= i < n && Has(sources[i], t)
    ensures Number(sources, n, t) == n <==> forall i :: 0 <= i < n ==> Has(sources[i], t)
  {
    if n > 0 { NumberIs(sources, n - 1, t); }
  }

  lemma {:induction false} BumpCounts(h: Health, s: Summary)
    ensures var h' := BumpHealth(h, s.status);
            Total(h') == Total(h) + 1 && (h'.degraded + h'.unavailable > 0 <==> h.degraded + h.unavailable > 0 || Has(s, Bad))
  {}

  lemma {:induction false} HealthCounts(sources: seq<Summary>, n: nat)
    requires n <= |sources|
    ensures var h := HealthOf(sources, n); Total(h) == n && (h.degraded + h.unavailable > 0 <==> Number(sources, n, Bad) > 0)
  {
    if n > 0 {
      HealthCounts(sources, n - 1);
      BumpCounts(HealthOf(sources, n - 1), sources[n - 1]);
    }
  }

  /** How many of the first `n` sources have the status. */
  function WithStatus(sources: seq<Summary>, n: nat, status: Status): nat
    requires n <= |sources|
  {
    if n == 0 then 0 else WithStatus(sources, n - 1, status) + if sources[n - 1].status == status then 1 else 0
  }

  /** Each counter counts the sources of its own status. */
  lemma {:induction false} HealthByStatus(sources: seq<Summary>, n: nat)
    requires n <= |sources|
    ensures HealthOf(sources, n) == Health(WithStatus(sources, n, Healthy), WithStatus(sources, n, Degraded),
                                           WithStatus(sources, n, Unavailable), WithStatus(sources, n, Unknown))
  {
    if n > 0 { HealthByStatus(sources, n - 1); }
  }

  lemma {:induction false} WithStatusIs(sources: seq<Summary>, n: nat, status: Status)
    requires n <= |sources|
    ensures WithStatus(sources, n, status) <= n
    ensures WithStatus(sources, n, status) > 0 <==> exists i :: 0 <= i < n && sources[i].status == status
    ensures WithStatus(sources, n, status) == n <==> forall i :: 0 <= i < n ==> sources[i].status == status
  {
    if n > 0 { WithStatusIs(sources, n - 1, status); }
  }

  /** Some source has the status. */
  ghost predicate Any(sources: seq<Summary>, status: Status) {
    exists i :: 0 <= i < |sources| && sources[i].status == status
  }

  /** All sources have the status. */
  ghost predicate All(sources: seq<Summary>, status: Status) {
    forall i :: 0 <= i < |sources| ==> sources[i].status == status
  }

  lemma {:induction false} HealthMeans(sources: seq<Summary>)
    ensures var h := HealthOf(sources, |sources|);
            && Total(h) == |sources| && (h.unavailable == |sources| <==> All(sources, Unavailable))
            && (h.unavailable > 0 <==> Any(sources, Unavailable)) && (h.degraded > 0 <==> Any(sources, Degraded)) && (h.healthy > 0 <==> Any(sources, Healthy))
  {
    HealthByStatus(sources, |sources|);
    HealthCounts(sources, |sources|);
    WithStatusIs(sources, |sources|, Unavailable);
    WithStatusIs(sources, |sources|, Degraded);
    WithStatusIs(sources, |sources|, Healthy);
  }

  /** The overall health of some sources: unavailable if and only if all of them are, degraded if and only if one of them is
      unavailable or degraded and not all of them unavailable, healthy if and only if one of them is and none is worse. */
  lemma {:induction false} OverallIff(sources: seq<Summary>)
    ensures var o := Overall(HealthOf(sources, |sources|));
            && (o == Unavailable <==> sources != [] && All(sources, Unavailable))
            && (o == Degraded <==> !All(sources, Unavailable) && (Any(sources, Unavailable) || Any(sources, Degraded)))
            && (o == Healthy <==> Any(sources, Healthy) && !Any(sources, Unavailable) && !Any(sources, Degraded))
  {
    HealthMeans(sources);
    AllIsAny(sources, Unavailable);
    OverallBy(HealthOf(sources, |sources|), All(sources, Unavailable), Any(sources, Unavailable), Any(sources, Degraded), Any(sources, Healthy));
  }

  lemma {:induction false} AllIsAny(sources: seq<Summary>, status: Status)
    ensures sources != [] && All(sources, status) ==> Any(sources, status)
    ensures sources == [] ==> All(sources, status) && !Any(sources, status)
  {
    if sources != [] && All(sources, status) { assert sources[0].status == status; }
  }

  lemma {:induction false} OverallBy(h: Health, allMissing: bool, missing: bool, degraded: bool, healthy: bool)
    requires (h.unavailable == Total(h) <==> allMissing) && (h.unavailable > 0 <==> missing) && (h.degraded > 0 <==> degraded) && (h.healthy > 0 <==> healthy)
    ensures Overall(h) == Unavailable <==> Total(h) > 0 && allMissing
    ensures Overall(h) == Degraded <==> !allMissing && (missing || degraded)
    ensures Overall(h) == Healthy <==> healthy && !missing && !degraded
  {}

  /** Fresh sources only, stale ones only, both, or neither. */
  lemma {:induction false} FreshnessIff(recent: nat, stale: nat)
    ensures FreshnessOf(recent, stale) == Mixed <==> recent > 0 && stale > 0
    ensures FreshnessOf(recent, stale) == Stale <==> recent == 0 && stale > 0
    ensures FreshnessOf(recent, stale) == Fresh <==> recent > 0 && stale == 0
  {}

  /** What the flags of a query say of its sources, written out. */
  lemma {:induction false} FlagsTell(sources: seq<Summary>, f: Flags)
    requires Flagged(sources, f) && sources != []
    ensures f.completeness == Complete <==> forall i :: 0 <= i < |sources| ==> sources[i].consistency.completeness == Complete
    ensures f.completeness == NotAvailable <==> forall i :: 0 <= i < |sources| ==> sources[i].consistency.completeness == NotAvailable
    ensures f.partialResults <==> exists i :: 0 <= i < |sources| && sources[i].consistency.completeness != Complete
    ensures f.failoverActive <==> exists i :: 0 <= i < |sources| && sources[i].consistency.failover == CachedSnapshot
    ensures f.degraded <==> exists i :: 0 <= i < |sources| && sources[i].status in {Degraded, Unavailable}
    ensures f.freshness in {Stale, Mixed} <==> exists i :: 0 <= i < |sources| && sources[i].consistency.freshness == Stale
    ensures f.freshness in {Fresh, Mixed} <==> exists i :: 0 <= i < |sources| && sources[i].consistency.freshness == Fresh
  {
    CompletenessTells(sources, f);
    var n := |sources|;
    NumberIs(sources, n, Cached);
    NumberIs(sources, n, Old);
    NumberIs(sources, n, Recent);
    DegradedTells(sources, f);
  }

  lemma {:induction false} CompletenessTells(sources: seq<Summary>, f: Flags)
    requires Flagged(sources, f) && sources != []
    ensures f.completeness == Complete <==> forall i :: 0 <= i < |sources| ==> sources[i].consistency.completeness == Complete
    ensures f.completeness == NotAvailable <==> forall i :: 0 <= i < |sources| ==> sources[i].consistency.completeness == NotAvailable
    ensures f.partialResults <==> exists i :: 0 <= i < |sources| && sources[i].consistency.completeness != Complete
  {
    NumberIs(sources, |sources|, Incomplete);
    NumberIs(sources, |sources|, Missing);
  }

  lemma {:induction false} DegradedTells(sources: seq<Summary>, f: Flags)
    requires Flagged(sources, f) && sources != []
    ensures f.degraded <==> exists i :: 0 <= i < |sources| && sources[i].status in {Degraded, Unavailable}
  {
    OverallIff(sources);
  }

  /** FederationConsistency; the numbers are of sources. */
  datatype Flags = Flags(freshness: Freshness, completeness: Completeness, degraded: bool, partialResults: bool, failoverActive: bool,
                         stale: nat, inPart: nat, missing: nat, cached: nat)

  /** How old the sources are: all recent, all old, some of each, or none with a date. */
  function FreshnessOf(recent: nat, stale: nat): Freshness {
    if stale > 0 && recent > 0 then Mixed else if stale > 0 then Stale else if recent > 0 then Fresh else FreshnessUnknown
  }

  /** The numbers are those of the sources, and so is the freshness. */
  ghost predicate Counted(sources: seq<Summary>, f: Flags) {
    && f.stale == Number(sources, |sources|, Old) && f.cached == Number(sources, |sources|, Cached)
    && f.inPart == Number(sources, |sources|, InPart) && f.missing == Number(sources, |sources|, Missing)
    && f.freshness == FreshnessOf(Number(sources, |sources|, Recent), f.stale)
  }

  /** The answer is complete if every source is, and not available if none is. */
  ghost predicate Completed(sources: seq<Summary>, f: Flags) {
    if sources == [] then f.completeness == CompletenessUnknown && !f.partialResults
    else
      && f.completeness in {Complete, Partial, NotAvailable}
      && (f.completeness == Complete <==> Number(sources, |sources|, Incomplete) == 0)
      && (f.completeness == NotAvailable <==> f.missing == |sources|)
  }

  /** With any source at all, partial results are reported exactly when the answer is not complete, and degradation
      exactly when the overall health is degraded or unavailable. */
  ghost predicate Flagged(sources: seq<Summary>, f: Flags) {
    && Counted(sources, f) && Completed(sources, f)
    && (sources != [] ==> (f.partialResults <==> f.completeness != Complete))
    && (f.degraded <==> Overall(HealthOf(sources, |sources|)) in {Degraded, Unavailable})
    && (f.failoverActive <==> f.cached > 0)
  }

  /** computeFederationConsistency */
  method ComputeFlags(sources: seq<Summary>) returns (f: Flags)
    requires forall s :: s in sources ==> Coherent(s)
    ensures Flagged(sources, f)
  {
    var recent, stale, complete, inPart, missing, cached := 0, 0, 0, 0, 0, 0;
    var partialResults, degraded, failoverActive := false, false, false;
    if sources == [] { return Flags(FreshnessUnknown, CompletenessUnknown, false, false, false, 0, 0, 0, 0); }
    for i := 0 to |sources|
      invariant recent == Number(sources, i, Recent) && stale == Number(sources, i, Old)
      invariant complete == i - Number(sources, i, Incomplete) && Number(sources, i, Incomplete) == inPart + missing
      invariant inPart == Number(sources, i, InPart) && missing == Number(sources, i, Missing) && cached == Number(sources, i, Cached)
      invariant partialResults <==> complete < i
      invariant degraded <==> Number(sources, i, Bad) > 0
      invariant failoverActive <==> cached > 0
    {
      var s := sources[i];
      assert s in sources && Coherent(s);
      match s.consistency.freshness {
        case Fresh => recent := recent + 1;
        case Stale => stale, partialResults := stale + 1, true;
        case _ =>
      }
      match s.consistency.completeness {
        case Complete => complete := complete + 1;
        case Partial => inPart, partialResults := inPart + 1, true;
        case NotAvailable => missing, partialResults := missing + 1, true;
        case _ =>
      }
      if s.consistency.failover == CachedSnapshot { cached, failoverActive, partialResults := cached + 1, true, true; }
      if s.consistency.degraded { degraded := true; }
    }
    HealthCounts(sources, |sources|);
    var overall := Overall(HealthOf(sources, |sources|));
    if overall == Degraded || overall == Unavailable { degraded := true; }
    f := Flags(FreshnessOf(recent, stale), if complete == |sources| then Complete else if missing == |sources| then NotAvailable else Partial,
               degraded, partialResults, failoverActive, stale, inPart, missing, cached);
  }
}
