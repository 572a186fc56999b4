/** The federation store: one inventory query over all sources, with its snapshot cache. */
module FederationStore {
  import opened Text
  import opened Federation

  /** A source, its cache key under the query's filter, and what it answers: nothing when it fails. */
  datatype Adapter = Adapter(source: Source, key: string, reply: Option<Reply>)

  /** The filters of a query and its clock. */
  datatype Query = Query(accepts: Source -> bool, searching: bool, found: Source -> bool, keep: (Source, Probe) -> bool,
                         now: int, staleAfter: int)

  datatype Item = Item(source: Source, probe: Probe)

  datatype FederatedInventory = FederatedInventory(items: seq<Item>, sources: seq<Summary>, totals: Totals,
                                 dist: map<Dimension, Counts>, byOs: Counts, health: Health)

  const EMPTY := FederatedInventory([], [], NOTHING, map[ById := map[], ByCluster := map[], BySite := map[], ByTenant := map[], ByOrg := map[], ByScope := map[]],
                           map[], Health(0, 0, 0, 0))

  function KeyOf(d: Dimension): Item -> string { (x: Item) => ValueOf(d, x.source) }
  function OsOf(): Item -> string { (x: Item) => OsKey(x.probe) }

  /** The totals of the first `n` items. */
  function TotalOfItems(items: seq<Item>, n: nat): Totals
    requires n <= |items|
  {
    if n == 0 then NOTHING else Plus(TotalOfItems(items, n - 1), Single(items[n - 1].probe))
  }

  /** The totals are those of the probes listed. */
  ghost predicate Totalled(inv: FederatedInventory) {
    inv.totals == TotalOfItems(inv.items, |inv.items|) && inv.totals.probes == |inv.items|
  }

  /** Every distribution counts each probe once, under its own key. */
  ghost predicate Distributed(inv: FederatedInventory) {
    && (forall d {:trigger KeyOf(d)} :: d in inv.dist && Tallies(inv.dist[d], inv.items, |inv.items|, KeyOf(d)) && Sum(inv.dist[d]) == |inv.items|)
    && Tallies(inv.byOs, inv.items, |inv.items|, OsOf()) && Sum(inv.byOs) == |inv.items|
  }

  /** The health counters are those of the sources listed. */
  ghost predicate Rated(inv: FederatedInventory) {
    && inv.health == HealthOf(inv.sources, |inv.sources|)
    && (forall s {:trigger Coherent(s)} :: s in inv.sources ==> Coherent(s))
  }

  ghost predicate AddsUp(inv: FederatedInventory) {
    Totalled(inv) && Distributed(inv) && Rated(inv)
  }

  // ---- what a query shows of a source ----

  /** The source's own answer, or the snapshot of its last one; the flag says that it is the snapshot. */
  function Used(cache: map<string, Reply>, a: Adapter): Option<(Reply, bool)> {
    if a.reply.Some? then Some((a.reply.value, false))
    else if a.key in cache then Some((cache[a.key], true))
    else None
  }

  function Kept(q: Query, s: Source, probes: seq<Probe>): seq<Probe> {
    if probes == [] then []
    else Kept(q, s, probes[..|probes| - 1]) + if q.keep(s, probes[|probes| - 1]) then [probes[|probes| - 1]] else []
  }

  lemma {:induction false} KeptMore(q: Query, s: Source, probes: seq<Probe>, p: Probe)
    ensures Kept(q, s, probes + [p]) == Kept(q, s, probes) + if q.keep(s, p) then [p] else []
  {
    assert (probes + [p])[..|probes|] == probes;
  }

  /** The probes kept are exactly those that pass the filter, each as often as it was reported. */
  lemma {:induction false} KeptIff(q: Query, s: Source, probes: seq<Probe>, p: Probe)
    ensures multiset(Kept(q, s, probes))[p] == if q.keep(s, p) then multiset(probes)[p] else 0
  {
    if probes != [] {
      var front, last := probes[..|probes| - 1], probes[|probes| - 1];
      assert probes == front + [last];
      KeptIff(q, s, front, p);
    }
  }

  /** And they keep their order. */
  lemma {:induction false} KeptConcat(q: Query, s: Source, a: seq<Probe>, b: seq<Probe>)
    ensures Kept(q, s, a + b) == Kept(q, s, a) + Kept(q, s, b)
  {
    if b == [] {
      assert a + b == a;
    } else {
      var front, last := b[..|b| - 1], b[|b| - 1];
      assert a + b == (a + front) + [last] && b == front + [last];
      KeptMore(q, s, a + front, last);
      KeptMore(q, s, front, last);
      KeptConcat(q, s, a, front);
    }
  }

  function Shown(q: Query, a: Adapter, used: Option<(Reply, bool)>): bool {
    q.accepts(a.source) && (!q.searching || q.found(a.source) || (used.Some? && Kept(q, a.source, used.value.0.probes) != []))
  }

  function SummaryOf(q: Query, a: Adapter, used: Option<(Reply, bool)>): Summary {
    match used
    case None => Summary(a.source, NO_SOURCE.1, NO_SOURCE.0, 0)
    case Some((r, failover)) =>
      var (consistency, status) := Classify(r, q.now, q.staleAfter, failover);
      Summary(a.source, status, consistency, |Kept(q, a.source, r.probes)|)
  }

  function ItemsOf(s: Source, probes: seq<Probe>): seq<Item> {
    seq(|probes|, i requires 0 <= i < |probes| => Item(s, probes[i]))
  }

  /** The probes a source adds to the answer. */
  function ItemsShown(q: Query, a: Adapter, used: Option<(Reply, bool)>): seq<Item> {
    if Shown(q, a, used) && used.Some? then ItemsOf(a.source, Kept(q, a.source, used.value.0.probes)) else []
  }

  /** A source is listed if and only if it passes the filters of the query and, in a search, is itself found or has a probe
      that is; one that is not listed adds no probe. */
  lemma {:induction false} ListedIff(q: Query, a: Adapter, used: Option<(Reply, bool)>)
    ensures Shown(q, a, used) <==>
            q.accepts(a.source) && (!q.searching || q.found(a.source) || (used.Some? && exists p :: p in used.value.0.probes && q.keep(a.source, p)))
    ensures !Shown(q, a, used) ==> ItemsShown(q, a, used) == []
  {
    if used.Some? {
      var probes := used.value.0.probes;
      var kept := Kept(q, a.source, probes);
      forall p ensures p in kept <==> p in probes && q.keep(a.source, p) {
        KeptIff(q, a.source, probes, p);
        assert (p in kept <==> multiset(kept)[p] > 0) && (p in probes <==> multiset(probes)[p] > 0);
      }
      if kept != [] { assert kept[0] in kept; }
    }
  }

  /** What is listed of a source: its own probes that pass the filter, with their number; an unavailable one has none. */
  lemma {:induction false} ListingTells(q: Query, a: Adapter, used: Option<(Reply, bool)>, item: Item)
    requires Shown(q, a, used)
    ensures item in ItemsShown(q, a, used) <==>
            item.source == a.source && used.Some? && item.probe in used.value.0.probes && q.keep(a.source, item.probe)
    ensures SummaryOf(q, a, used).source == a.source && SummaryOf(q, a, used).probes == |ItemsShown(q, a, used)|
    ensures SummaryOf(q, a, used).status == Unavailable <==> used.None?
  {
    if used.Some? {
      var probes := used.value.0.probes;
      var kept := Kept(q, a.source, probes);
      KeptIff(q, a.source, probes, item.probe);
      assert (item.probe in kept <==> multiset(kept)[item.probe] > 0) && (item.probe in probes <==> multiset(probes)[item.probe] > 0);
      if item.probe in kept && item.source == a.source {
        var i :| 0 <= i < |kept| && kept[i] == item.probe;
        assert ItemsOf(a.source, kept)[i] == item;
      }
      ClassifiedIff(used.value.0, q.now, q.staleAfter, used.value.1);
    }
  }

  /** The distributions of an inventory that adds up: each says of every cluster, site, tenant, organization, scope and source
      how many of the listed probes are there. */
  lemma {:induction false} DistributionsTell(inv: FederatedInventory, v: string)
    requires AddsUp(inv)
    ensures forall d :: d in inv.dist
    ensures At(inv.dist[ByCluster], v) == Count(inv.items, |inv.items|, (x: Item) => x.source.cluster, v)
    ensures At(inv.dist[BySite], v) == Count(inv.items, |inv.items|, (x: Item) => x.source.site, v)
    ensures At(inv.dist[ByTenant], v) == Count(inv.items, |inv.items|, (x: Item) => x.source.tenant, v)
    ensures At(inv.dist[ByOrg], v) == Count(inv.items, |inv.items|, (x: Item) => x.source.org, v)
    ensures At(inv.dist[ByScope], v) == Count(inv.items, |inv.items|, (x: Item) => x.source.scope, v)
    ensures At(inv.dist[ById], v) == Count(inv.items, |inv.items|, (x: Item) => x.source.id, v)
  {
    forall d ensures d in inv.dist && At(inv.dist[d], v) == Count(inv.items, |inv.items|, KeyOf(d), v) { var key := KeyOf(d); }
    SameKey(inv.items, |inv.items|, KeyOf(ByCluster), (x: Item) => x.source.cluster, v);
    SameKey(inv.items, |inv.items|, KeyOf(BySite), (x: Item) => x.source.site, v);
    SameKey(inv.items, |inv.items|, KeyOf(ByTenant), (x: Item) => x.source.tenant, v);
    SameKey(inv.items, |inv.items|, KeyOf(ByOrg), (x: Item) => x.source.org, v);
    SameKey(inv.items, |inv.items|, KeyOf(ByScope), (x: Item) => x.source.scope, v);
    SameKey(inv.items, |inv.items|, KeyOf(ById), (x: Item) => x.source.id, v);
  }

  lemma {:induction false} SameKey(items: seq<Item>, n: nat, f: Item -> string, g: Item -> string, v: string)
    requires n <= |items| && forall x :: f(x) == g(x)
    ensures Count(items, n, f, v) == Count(items, n, g, v)
  {
    if n > 0 { SameKey(items, n - 1, f, g, v); }
  }

  // ---- the whole query ----

  /** The cache after the first `n` sources: every answer is kept as the snapshot of its source. */
  function CacheAfter(cache: map<string, Reply>, q: Query, adapters: seq<Adapter>, n: nat): map<string, Reply>
    requires n <= |adapters|
  {
    if n == 0 then cache
    else
      var before, a := CacheAfter(cache, q, adapters, n - 1), adapters[n - 1];
      if q.accepts(a.source) then Stored(before, a) else before
  }

  function Stored(cache: map<string, Reply>, a: Adapter): map<string, Reply> {
    if a.reply.Some? then cache[a.key := a.reply.value] else cache
  }

  lemma {:induction false} CacheNext(cache: map<string, Reply>, q: Query, adapters: seq<Adapter>, i: nat)
    requires i < |adapters|
    ensures var before := CacheAfter(cache, q, adapters, i);
            CacheAfter(cache, q, adapters, i + 1) == if q.accepts(adapters[i].source) then Stored(before, adapters[i]) else before
  {}

  function SourcesAfter(cache: map<string, Reply>, q: Query, adapters: seq<Adapter>, n: nat): seq<Summary>
    requires n <= |adapters|
  {
    if n == 0 then []
    else
      var a := adapters[n - 1];
      var used := Used(CacheAfter(cache, q, adapters, n - 1), a);
      SourcesAfter(cache, q, adapters, n - 1) + if Shown(q, a, used) then [SummaryOf(q, a, used)] else []
  }

  lemma {:induction false} SourcesNext(cache: map<string, Reply>, q: Query, adapters: seq<Adapter>, i: nat)
    requires i < |adapters|
    ensures var a, used, before := adapters[i], Used(CacheAfter(cache, q, adapters, i), adapters[i]), SourcesAfter(cache, q, adapters, i);
            SourcesAfter(cache, q, adapters, i + 1) == if Shown(q, a, used) then before + [SummaryOf(q, a, used)] else before
  {
    var before := SourcesAfter(cache, q, adapters, i);
    assert before + [] == before;
  }

  function ItemsAfter(cache: map<string, Reply>, q: Query, adapters: seq<Adapter>, n: nat): seq<Item>
    requires n <= |adapters|
  {
    if n == 0 then []
    else
      ItemsAfter(cache, q, adapters, n - 1) + ItemsShown(q, adapters[n - 1], Used(CacheAfter(cache, q, adapters, n - 1), adapters[n - 1]))
  }

  lemma {:induction false} ItemsNext(cache: map<string, Reply>, q: Query, adapters: seq<Adapter>, i: nat)
    requires i < |adapters|
    ensures var a, used := adapters[i], Used(CacheAfter(cache, q, adapters, i), adapters[i]);
            ItemsAfter(cache, q, adapters, i + 1) == ItemsAfter(cache, q, adapters, i) + ItemsShown(q, a, used)
  {}

  /** Source `i` of the query reports the probe: in its own answer, or, if it failed, in the snapshot it has by then. */
  predicate Reports(cache: map<string, Reply>, q: Query, adapters: seq<Adapter>, i: nat, item: Item)
    requires i < |adapters|
  {
    var a := adapters[i];
    var snapshots := CacheAfter(cache, q, adapters, i);
    && q.accepts(a.source) && item.source == a.source && q.keep(a.source, item.probe)
    && if a.reply.Some? then item.probe in a.reply.value.probes else a.key in snapshots && item.probe in snapshots[a.key].probes
  }

  ghost predicate Reported(cache: map<string, Reply>, q: Query, adapters: seq<Adapter>, n: nat, item: Item)
    requires n <= |adapters|
  {
    exists i {:trigger Reports(cache, q, adapters, i, item)} :: 0 <= i < n && Reports(cache, q, adapters, i, item)
  }

  lemma {:induction false} ShownIff(cache: map<string, Reply>, q: Query, adapters: seq<Adapter>, i: nat, item: Item)
    requires i < |adapters|
    ensures item in ItemsShown(q, adapters[i], Used(CacheAfter(cache, q, adapters, i), adapters[i])) <==> Reports(cache, q, adapters, i, item)
  {
    var a := adapters[i];
    var used := Used(CacheAfter(cache, q, adapters, i), a);
    ListedIff(q, a, used);
    if Shown(q, a, used) { ListingTells(q, a, used, item); }
  }

  lemma {:induction false} NextItemIff(cache: map<string, Reply>, q: Query, adapters: seq<Adapter>, i: nat, item: Item)
    requires i < |adapters|
    ensures item in ItemsAfter(cache, q, adapters, i + 1) <==> item in ItemsAfter(cache, q, adapters, i) || Reports(cache, q, adapters, i, item)
  {
    ShownIff(cache, q, adapters, i, item);
    InEither(ItemsAfter(cache, q, adapters, i), ItemsShown(q, adapters[i], Used(CacheAfter(cache, q, adapters, i), adapters[i])), item);
  }

  lemma {:induction false} InEither(a: seq<Item>, b: seq<Item>, item: Item)
    ensures item in a + b <==> item in a || item in b
  {}

  lemma {:induction false} ReportedMore(cache: map<string, Reply>, q: Query, adapters: seq<Adapter>, n: nat, item: Item)
    requires n < |adapters|
    ensures Reported(cache, q, adapters, n + 1, item) <==> Reported(cache, q, adapters, n, item) || Reports(cache, q, adapters, n, item)
  {}

  /** The probes of an inventory are exactly those that some source reports and the filters let through. */
  lemma {:induction false} ItemsIff(cache: map<string, Reply>, q: Query, adapters: seq<Adapter>, n: nat, item: Item)
    requires n <= |adapters|
    ensures item in ItemsAfter(cache, q, adapters, n) <==> Reported(cache, q, adapters, n, item)
  {
    for k := 0 to n
      invariant item in ItemsAfter(cache, q, adapters, k) <==> Reported(cache, q, adapters, k, item)
    {
      NextItemIff(cache, q, adapters, k, item);
      ReportedMore(cache, q, adapters, k, item);
    }
  }

  /** A source that answers is listed as it answers, and one that fails is listed as degraded if there is a snapshot, and as
      unavailable otherwise. */
  lemma {:induction false} SourceIsListed(cache: map<string, Reply>, q: Query, adapters: seq<Adapter>, n: nat, i: nat) returns (s: Summary)
    requires i < n <= |adapters| && q.accepts(adapters[i].source) && !q.searching
    ensures s in SourcesAfter(cache, q, adapters, n) && s.source == adapters[i].source
    ensures adapters[i].reply.Some? ==> s.status != Unavailable && s.consistency.failover == NoFailover
    ensures adapters[i].reply.None? && adapters[i].key in CacheAfter(cache, q, adapters, i) ==> s.status == Degraded && s.consistency.failover == CachedSnapshot
    ensures adapters[i].reply.None? && adapters[i].key !in CacheAfter(cache, q, adapters, i) ==> s.status == Unavailable && s.probes == 0
  {
    SourcesNext(cache, q, adapters, n - 1);
    if i < n - 1 {
      s := SourceIsListed(cache, q, adapters, n - 1, i);
    } else {
      s := SummaryOf(q, adapters[i], Used(CacheAfter(cache, q, adapters, i), adapters[i]));
    }
  }

  lemma {:induction false} SummaryIsCoherent(q: Query, a: Adapter, used: Option<(Reply, bool)>)
    ensures Coherent(SummaryOf(q, a, used))
  {}

  // ---- adding one source ----

  /** The counters of one more source. */
  function Absorb(inv: FederatedInventory, s: Summary, probes: seq<Probe>, totals: Totals, byOs: Counts): FederatedInventory {
    FederatedInventory(inv.items + ItemsOf(s.source, probes), inv.sources + [s], Plus(inv.totals, totals),
                       Spread(inv.dist, s.source, |probes|), byOs, BumpHealth(inv.health, s.status))
  }

  /** A source that cannot be served: listed, and counted as unavailable. */
  function Note(inv: FederatedInventory, s: Summary): FederatedInventory {
    inv.(sources := inv.sources + [s], health := BumpHealth(inv.health, s.status))
  }

  lemma {:induction false} NoteAddsUp(inv: FederatedInventory, s: Summary)
    requires AddsUp(inv) && Coherent(s)
    ensures AddsUp(Note(inv, s))
  {
    HealthMore(inv.sources, s);
    forall d ensures d in inv.dist && Tallies(inv.dist[d], inv.items, |inv.items|, KeyOf(d)) && Sum(inv.dist[d]) == |inv.items| {
      var key := KeyOf(d);
    }
  }

  lemma {:induction false} HealthMore(sources: seq<Summary>, s: Summary)
    ensures HealthOf(sources + [s], |sources| + 1) == BumpHealth(HealthOf(sources, |sources|), s.status)
    ensures Total(HealthOf(sources + [s], |sources| + 1)) == |sources| + 1
  {
    HealthPrefix(sources, s, |sources|);
    HealthCounts(sources + [s], |sources| + 1);
  }

  lemma {:induction false} DistributionMore(m: Counts, items: seq<Item>, d: Dimension, s: Source, probes: seq<Probe>)
    requires Tallies(m, items, |items|, KeyOf(d))
    ensures Tallies(Bump(m, ValueOf(d, s), |probes|), items + ItemsOf(s, probes), |items| + |probes|, KeyOf(d))
  {
    var more := ItemsOf(s, probes);
    forall v ensures At(Bump(m, ValueOf(d, s), |probes|), v) == Count(items + more, |items| + |probes|, KeyOf(d), v) {
      assert At(m, v) == Count(items, |items|, KeyOf(d), v);
      CountConcat(items, more, |probes|, KeyOf(d), v);
      CountSame(more, |probes|, KeyOf(d), ValueOf(d, s), v);
    }
  }

  lemma {:induction false} OsCounts(s: Source, probes: seq<Probe>, n: nat, v: string)
    requires n <= |probes|
    ensures Count(ItemsOf(s, probes), n, OsOf(), v) == Count(probes, n, OsKey, v)
  {
    if n > 0 { OsCounts(s, probes, n - 1, v); }
  }

  lemma {:induction false} OsMore(m: Counts, items: seq<Item>, s: Source, probes: seq<Probe>, more: Counts, sum: Counts)
    requires Tallies(m, items, |items|, OsOf()) && Tallies(more, probes, |probes|, OsKey) && forall v :: At(sum, v) == At(m, v) + At(more, v)
    ensures Tallies(sum, items + ItemsOf(s, probes), |items| + |probes|, OsOf())
  {
    forall v ensures At(sum, v) == Count(items + ItemsOf(s, probes), |items| + |probes|, OsOf(), v) {
      CountConcat(items, ItemsOf(s, probes), |probes|, OsOf(), v);
      OsCounts(s, probes, |probes|, v);
    }
  }

  lemma {:induction false} HealthPrefix(a: seq<Summary>, s: Summary, n: nat)
    requires n <= |a|
    ensures HealthOf(a + [s], n) == HealthOf(a, n)
  {
    if n > 0 { HealthPrefix(a, s, n - 1); }
  }

  lemma {:induction false} TotalsPrefix(a: seq<Item>, b: seq<Item>, n: nat)
    requires n <= |a|
    ensures TotalOfItems(a + b, n) == TotalOfItems(a, n)
  {
    if n > 0 { TotalsPrefix(a, b, n - 1); }
  }

  lemma {:induction false} PlusRegroup(a: Totals, b: Totals, c: Totals)
    ensures Plus(Plus(a, b), c) == Plus(a, Plus(b, c))
  {}

  lemma {:induction false} TotalsMore(items: seq<Item>, s: Source, probes: seq<Probe>, n: nat)
    requires n <= |probes|
    ensures TotalOfItems(items + ItemsOf(s, probes), |items| + n) == Plus(TotalOfItems(items, |items|), TotalsOf(probes, n))
  {
    if n == 0 {
      TotalsPrefix(items, ItemsOf(s, probes), |items|);
    } else {
      TotalsMore(items, s, probes, n - 1);
      PlusRegroup(TotalOfItems(items, |items|), TotalsOf(probes, n - 1), Single(probes[n - 1]));
    }
  }

  lemma {:induction false} TotalsCount(items: seq<Item>, n: nat)
    requires n <= |items|
    ensures TotalOfItems(items, n).probes == n && TotalOfItems(items, n).online <= n
  {
    if n > 0 { TotalsCount(items, n - 1); }
  }

  /** The sum of a number over the first `n` items. */
  function SumOver(items: seq<Item>, n: nat, f: Probe -> int): int
    requires n <= |items|
  {
    if n == 0 then 0 else SumOver(items, n - 1, f) + f(items[n - 1].probe)
  }

  /** The totals of an inventory that adds up: its probes, those of them that are online, and the sums of their processors and
      of their memory. */
  lemma {:induction false} TotalsTell(items: seq<Item>, n: nat)
    requires n <= |items|
    ensures var t := TotalOfItems(items, n);
            && t.probes == n && t.online == SumOver(items, n, (p: Probe) => if p.online then 1 else 0)
            && t.cpus == SumOver(items, n, (p: Probe) => p.cpus) && t.ram == SumOver(items, n, (p: Probe) => p.ram)
  {
    if n > 0 { TotalsTell(items, n - 1); }
  }

  /** Every distribution, with the probes of one more source. */
  function Spread(dist: map<Dimension, Counts>, s: Source, n: nat): map<Dimension, Counts> {
    map d | d in dist :: Bump(dist[d], ValueOf(d, s), n)
  }

  lemma {:induction false} AbsorbTotalled(inv: FederatedInventory, s: Summary, probes: seq<Probe>, totals: Totals, byOs: Counts)
    requires Totalled(inv) && totals == TotalsOf(probes, |probes|)
    ensures Totalled(Absorb(inv, s, probes, totals, byOs))
  {
    TotalsMore(inv.items, s.source, probes, |probes|);
    TotalsCount(inv.items + ItemsOf(s.source, probes), |inv.items| + |probes|);
  }

  lemma {:induction false} AbsorbDistributed(inv: FederatedInventory, s: Summary, probes: seq<Probe>, totals: Totals, byOs: Counts)
    requires Distributed(inv)
    requires Tallies(byOs, inv.items + ItemsOf(s.source, probes), |inv.items| + |probes|, OsOf()) && Sum(byOs) == |inv.items| + |probes|
    ensures Distributed(Absorb(inv, s, probes, totals, byOs))
  {
    var inv' := Absorb(inv, s, probes, totals, byOs);
    forall d ensures d in inv'.dist && Tallies(inv'.dist[d], inv'.items, |inv'.items|, KeyOf(d)) && Sum(inv'.dist[d]) == |inv'.items| {
      var key := KeyOf(d);
      DistributionMore(inv.dist[d], inv.items, d, s.source, probes);
      SumBump(inv.dist[d], ValueOf(d, s.source), |probes|);
    }
  }

  lemma {:induction false} AbsorbRated(inv: FederatedInventory, s: Summary, probes: seq<Probe>, totals: Totals, byOs: Counts)
    requires Rated(inv) && Coherent(s)
    ensures Rated(Absorb(inv, s, probes, totals, byOs))
  {
    HealthMore(inv.sources, s);
  }

  class Store {
    var snapshots: map<string, Reply>

    constructor ()
      ensures snapshots == map[]
    {
      snapshots := map[];
    }

    /** filterFederatedProbes */
    method Filter(q: Query, s: Source, probes: seq<Probe>) returns (kept: seq<Probe>)
      ensures kept == Kept(q, s, probes)
    {
      kept := [];
      for i := 0 to |probes|
        invariant kept == Kept(q, s, probes[..i])
      {
        assert probes[..i + 1][..i] == probes[..i];
        if q.keep(s, probes[i]) { kept := kept + [probes[i]]; }
      }
      assert probes[..|probes|] == probes;
    }

    /** The loop that adds the counts of one source to the totals. */
    method Merge(m: Counts, more: Counts) returns (sum: Counts)
      ensures (forall v :: At(sum, v) == At(m, v) + At(more, v)) && Sum(sum) == Sum(m) + Sum(more)
    {
      sum := m;
      var todo := more;
      while todo != map[]
        invariant todo.Keys <= more.Keys
        invariant forall v :: At(sum, v) == At(m, v) + At(more, v) - At(todo, v)
        invariant forall v :: v in todo ==> todo[v] == more[v]
        invariant Sum(sum) == Sum(m) + Sum(more) - Sum(todo)
        decreases todo.Keys
      {
        var k :| k in todo;
        SumBump(sum, k, todo[k]);
        SumWithout(todo, k);
        sum := Bump(sum, k, todo[k]);
        todo := todo - {k};
      }
    }

    /** The probes of one source are counted and listed. */
    method Serve(inv: FederatedInventory, summary: Summary, probes: seq<Probe>) returns (inv': FederatedInventory)
      requires AddsUp(inv) && Coherent(summary)
      ensures AddsUp(inv') && inv'.sources == inv.sources + [summary] && inv'.items == inv.items + ItemsOf(summary.source, probes)
    {
      var totals, byOs := Aggregate(probes);
      var merged := Merge(inv.byOs, byOs);
      OsMore(inv.byOs, inv.items, summary.source, probes, byOs, merged);
      AbsorbTotalled(inv, summary, probes, totals, merged);
      AbsorbDistributed(inv, summary, probes, totals, merged);
      AbsorbRated(inv, summary, probes, totals, merged);
      inv' := Absorb(inv, summary, probes, totals, merged);
    }

    /** One source of the loop, with the reply it is served from. */
    method Add(inv: FederatedInventory, q: Query, a: Adapter, used: Option<(Reply, bool)>) returns (inv': FederatedInventory)
      requires AddsUp(inv) && q.accepts(a.source)
      ensures AddsUp(inv')
      ensures inv'.sources == if Shown(q, a, used) then inv.sources + [SummaryOf(q, a, used)] else inv.sources
      ensures inv'.items == inv.items + ItemsShown(q, a, used)
    {
      SummaryIsCoherent(q, a, used);
      if used.None? {
        if q.searching && !q.found(a.source) { return inv; }
        NoteAddsUp(inv, SummaryOf(q, a, used));
        return Note(inv, SummaryOf(q, a, used));
      }
      var probes := Filter(q, a.source, used.value.0.probes);
      if q.searching && probes == [] && !q.found(a.source) { return inv; }
      inv' := Serve(inv, SummaryOf(q, a, used), probes);
    }

    /** storeSnapshot */
    method Keep(a: Adapter)
      modifies this
      ensures snapshots == Stored(old(snapshots), a)
    {
      if a.reply.Some? { snapshots := snapshots[a.key := a.reply.value]; }
    }

    /** The loop over the sources. */
    method Collect(q: Query, adapters: seq<Adapter>) returns (inv: FederatedInventory)
      modifies this
      ensures AddsUp(inv)
      ensures inv.sources == SourcesAfter(old(snapshots), q, adapters, |adapters|)
      ensures inv.items == ItemsAfter(old(snapshots), q, adapters, |adapters|)
      ensures snapshots == CacheAfter(old(snapshots), q, adapters, |adapters|)
    {
      inv := EMPTY;
      EmptyAddsUp();
      for i := 0 to |adapters|
        invariant AddsUp(inv)
        invariant inv.sources == SourcesAfter(old(snapshots), q, adapters, i)
        invariant inv.items == ItemsAfter(old(snapshots), q, adapters, i)
        invariant snapshots == CacheAfter(old(snapshots), q, adapters, i)
      {
        var a := adapters[i];
        SourcesNext(old(snapshots), q, adapters, i);
        ItemsNext(old(snapshots), q, adapters, i);
        CacheNext(old(snapshots), q, adapters, i);
        if !q.accepts(a.source) { continue; }
        inv := Add(inv, q, a, Used(snapshots, a));
        Keep(a);
      }
    }

    /** Inventory: everything adds up; each source is reported as its answer, or the last one it gave, says; the flags are
        those of the sources; and the answers become the snapshots. */
    method Inventory(q: Query, adapters: seq<Adapter>) returns (inv: FederatedInventory, flags: Flags)
      modifies this
      ensures AddsUp(inv) && Total(inv.health) == |inv.sources| && Flagged(inv.sources, flags)
      ensures inv.sources == SourcesAfter(old(snapshots), q, adapters, |adapters|)
      ensures inv.items == ItemsAfter(old(snapshots), q, adapters, |adapters|)
      ensures snapshots == CacheAfter(old(snapshots), q, adapters, |adapters|)
    {
      inv := Collect(q, adapters);
      HealthCounts(inv.sources, |inv.sources|);
      forall s | s in inv.sources ensures Coherent(s) {}
      flags := ComputeFlags(inv.sources);
    }
  }

  // ---- the snapshots over several queries ----

  /** One query and what every source answers to it. */
  datatype Asked = Asked(q: Query, adapters: seq<Adapter>)

  /** The snapshots after some queries. */
  function CacheOver(cache: map<string, Reply>, history: seq<Asked>): map<string, Reply> {
    if history == [] then cache
    else
      var last := history[|history| - 1];
      CacheAfter(CacheOver(cache, history[..|history| - 1]), last.q, last.adapters, |last.adapters|)
  }

  /** The last answer given under a key among the first `n` sources of a query. */
  function LastOf(q: Query, adapters: seq<Adapter>, n: nat, key: string): Option<Reply>
    requires n <= |adapters|
  {
    if n == 0 then None
    else
      var a := adapters[n - 1];
      if q.accepts(a.source) && a.key == key && a.reply.Some? then a.reply else LastOf(q, adapters, n - 1, key)
  }

  /** The last answer given under a key over all queries. */
  function LastOver(history: seq<Asked>, key: string): Option<Reply> {
    if history == [] then None
    else
      var last := history[|history| - 1];
      var r := LastOf(last.q, last.adapters, |last.adapters|, key);
      if r.Some? then r else LastOver(history[..|history| - 1], key)
  }

  function Snapshot(m: map<string, Reply>, key: string): Option<Reply> {
    if key in m then Some(m[key]) else None
  }

  lemma {:induction false} CacheHoldsLast(cache: map<string, Reply>, q: Query, adapters: seq<Adapter>, n: nat, key: string)
    requires n <= |adapters|
    ensures Snapshot(CacheAfter(cache, q, adapters, n), key) == if LastOf(q, adapters, n, key).Some? then LastOf(q, adapters, n, key) else Snapshot(cache, key)
  {
    if n > 0 { CacheHoldsLast(cache, q, adapters, n - 1, key); }
  }

  /** Over every sequence of queries, the snapshot under a key is the last answer that was given under it. */
  lemma {:induction false} SnapshotIsLastAnswer(history: seq<Asked>, key: string)
    ensures Snapshot(CacheOver(map[], history), key) == LastOver(history, key)
  {
    if history != [] {
      var front, last := history[..|history| - 1], history[|history| - 1];
      SnapshotIsLastAnswer(front, key);
      CacheHoldsLast(CacheOver(map[], front), last.q, last.adapters, |last.adapters|, key);
    }
  }

  /** So a source that fails is served from the last answer it gave under its key, and is unavailable exactly if there is
      none. */
  lemma {:induction false} ServedFromLastAnswer(history: seq<Asked>, a: Adapter)
    requires a.reply.None?
    ensures Used(CacheOver(map[], history), a) == if LastOver(history, a.key).Some? then Some((LastOver(history, a.key).value, true)) else None
  {
    SnapshotIsLastAnswer(history, a.key);
  }

  lemma {:induction false} EmptyAddsUp()
    ensures AddsUp(EMPTY)
  {
    assert Sum(map[]) == 0;
    forall d ensures d in EMPTY.dist && EMPTY.dist[d] == map[] {
      match d
      case ById =>
      case _ =>
    }
  }
}
