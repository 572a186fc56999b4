/** The alert engine over whole series of passes: when an alert fires and when it is resolved, in terms of the rules, the
    probes and the conditions that the passes found. */
module AlertHistory {
  import opened Text
  import opened Alerts
  import opened AlertEngine

  ghost predicate AllWellFormed(scenes: seq<Scene>) {
    forall i :: 0 <= i < |scenes| ==> WellFormed(scenes[i])
  }

  ghost function PassesFor(scenes: seq<Scene>, k: Key): seq<Pass> {
    seq(|scenes|, i requires 0 <= i < |scenes| => PassFor(scenes[i], k))
  }

  /** Whether the alert of a key is firing after these passes over a new engine. */
  ghost predicate FiringAfter(scenes: seq<Scene>, k: Key) {
    After(PassesFor(scenes, k)).firing
  }

  lemma {:induction false} PassesMore(scenes: seq<Scene>, sc: Scene, k: Key)
    ensures PassesFor(scenes + [sc], k) == PassesFor(scenes, k) + [PassFor(sc, k)]
    ensures After(PassesFor(scenes + [sc], k)) == Next(After(PassesFor(scenes, k)), PassFor(sc, k))
  {
    var all, front := PassesFor(scenes + [sc], k), PassesFor(scenes, k);
    assert all == front + [PassFor(sc, k)];
    assert all[..|all| - 1] == front;
  }

  /** The loop that evaluates at every tick and event: a new engine after a series of passes. */
  method Watch(scenes: seq<Scene>) returns (e: Engine)
    requires AllWellFormed(scenes)
    ensures fresh(e) && e.Valid() && forall k :: k in e.firing <==> FiringAfter(scenes, k)
  {
    e := new Engine();
    for i := 0 to |scenes|
      invariant fresh(e) && e.Valid()
      invariant forall k :: e.StateOf(k) == After(PassesFor(scenes[..i], k))
    {
      e.Evaluate(scenes[i]);
      assert scenes[..i + 1] == scenes[..i] + [scenes[i]];
      forall k ensures e.StateOf(k) == After(PassesFor(scenes[..i + 1], k)) { PassesMore(scenes[..i], scenes[i], k); }
    }
    assert scenes[..|scenes|] == scenes;
    forall k ensures k in e.firing <==> FiringAfter(scenes, k) { assert e.StateOf(k) == After(PassesFor(scenes, k)); }
  }

  // ---- what a pass looks at ----

  /** The rule of the key is among the rules of the pass. */
  predicate Governs(r: Rule, sc: Scene, k: Key) {
    r in sc.rules && r.id == k.rule
  }

  /** The rule is enabled, its duration is readable, and it matches the tags of the probe, which is there. */
  predicate Applies(r: Rule, sc: Scene, k: Key) {
    Governs(r, sc, k) && r.enabled && r.duration.Some? && k.probe in sc.probes && sc.tagged(k)
  }

  ghost predicate LookedAt(sc: Scene, k: Key) {
    exists r :: Applies(r, sc, k)
  }

  lemma {:induction false} OnlyRule(sc: Scene, k: Key, r: Rule)
    requires WellFormed(sc) && Governs(r, sc, k)
    ensures HasRule(sc.rules, k.rule) && RuleAt(sc.rules, k.rule) == r
  {
    var i :| 0 <= i < |sc.rules| && sc.rules[i] == r;
    RuleAtIs(sc.rules, i);
  }

  lemma {:induction false} SeenIff(sc: Scene, k: Key)
    requires WellFormed(sc)
    ensures LookAt(sc, k).Seen? <==> LookedAt(sc, k)
    ensures LookedAt(sc, k) ==> LookAt(sc, k).met == sc.met(k)
  {
    if LookedAt(sc, k) {
      var r :| Applies(r, sc, k);
      OnlyRule(sc, k, r);
    } else if LookAt(sc, k).Seen? {
      assert Applies(RuleAt(sc.rules, k.rule), sc, k);
    }
  }

  lemma {:induction false} WaitIs(sc: Scene, k: Key, r: Rule)
    requires WellFormed(sc) && Applies(r, sc, k)
    ensures LookAt(sc, k) == Seen(sc.met(k), if r.offline then 0 else r.duration.value)
  {
    OnlyRule(sc, k, r);
  }

  lemma {:induction false} FiringLooks(s: KeyState, p: Pass)
    requires !s.firing && Next(s, p).firing
    ensures p.look.Seen? && p.look.met && Fires(s, p)
  {}

  // ---- a rule with a duration ----

  /** From pass `m` on, every pass that looked at the key found the condition met. */
  ghost predicate MetFrom(scenes: seq<Scene>, k: Key, m: nat) {
    forall i :: m <= i < |scenes| && LookedAt(scenes[i], k) ==> scenes[i].met(k)
  }

  /** Pass `m` looked at the key at least `d` before `now`, and the condition has been met since. */
  ghost predicate MetFor(scenes: seq<Scene>, k: Key, m: nat, now: int, d: int) {
    m < |scenes| && now - scenes[m].now >= d && LookedAt(scenes[m], k) && MetFrom(scenes, k, m)
  }

  lemma {:induction false} PersistingIsMet(scenes: seq<Scene>, k: Key, m: nat)
    requires AllWellFormed(scenes) && PersistsFrom(PassesFor(scenes, k), m)
    ensures MetFrom(scenes, k, m)
  {
    forall i | m <= i < |scenes| && LookedAt(scenes[i], k) ensures scenes[i].met(k) {
      assert PassesFor(scenes, k)[i] == PassFor(scenes[i], k);
      SeenIff(scenes[i], k);
    }
  }

  /** An alert starts to fire at a pass only if the pass looks at it and finds its condition met. If its rule is not an
      offline rule and has a duration, an earlier pass, at least that long ago, looked at it, and every pass from there on
      that looked at it found the condition met. */
  lemma {:induction false} FiresOnlyAfterItsDuration(scenes: seq<Scene>, sc: Scene, k: Key)
    requires AllWellFormed(scenes) && WellFormed(sc) && !FiringAfter(scenes, k) && FiringAfter(scenes + [sc], k)
    ensures LookedAt(sc, k) && sc.met(k) && sc.fireOk(k)
    ensures forall r :: Governs(r, sc, k) && !r.offline && r.duration.Some? && r.duration.value > 0 ==>
              exists m: nat :: MetFor(scenes, k, m, sc.now, r.duration.value)
  {
    var passes, p := PassesFor(scenes, k), PassFor(sc, k);
    PassesMore(scenes, sc, k);
    FiringLooks(After(passes), p);
    SeenIff(sc, k);
    forall r | Governs(r, sc, k) && !r.offline && r.duration.Some? && r.duration.value > 0
      ensures exists m: nat :: MetFor(scenes, k, m, sc.now, r.duration.value)
    {
      OnlyRule(sc, k, r);
      PersistedFor(scenes, sc, k, r.duration.value);
    }
  }

  lemma {:induction false} PersistedFor(scenes: seq<Scene>, sc: Scene, k: Key, d: int)
    requires AllWellFormed(scenes) && Fires(After(PassesFor(scenes, k)), PassFor(sc, k)) && LookAt(sc, k).Seen? && LookAt(sc, k).wait == d > 0
    ensures exists m: nat :: MetFor(scenes, k, m, sc.now, d)
  {
    var passes := PassesFor(scenes, k);
    PendingMeans(passes);
    var m: nat :| Since(passes, m, After(passes).pending.value);
    PersistingIsMet(scenes, k, m);
    SeenIff(scenes[m], k);
    assert MetFor(scenes, k, m, sc.now, d);
  }

  // ---- a rule without one ----

  /** An offline rule, which measures its own duration, and a rule without a duration are firing after every pass that finds
      the condition met on a probe they apply to, if the store works. */
  lemma {:induction false} FiresAtOnce(scenes: seq<Scene>, sc: Scene, k: Key, r: Rule)
    requires WellFormed(sc) && Applies(r, sc, k) && (r.offline || r.duration.value <= 0) && sc.met(k) && sc.fireOk(k)
    ensures FiringAfter(scenes + [sc], k)
  {
    PassesMore(scenes, sc, k);
    WaitIs(sc, k, r);
  }

  /** A pass that does not look at a firing alert, or finds its condition unmet, resolves it, if the store works. */
  lemma {:induction false} ResolvesAtOnce(scenes: seq<Scene>, sc: Scene, k: Key)
    requires WellFormed(sc) && sc.resolveOk(k) && !(LookedAt(sc, k) && sc.met(k))
    ensures !FiringAfter(scenes + [sc], k)
  {
    PassesMore(scenes, sc, k);
    SeenIff(sc, k);
  }

  // ---- it does fire ----

  /** The passes came one after the other. */
  ghost predicate InOrder(scenes: seq<Scene>) {
    forall i, j :: 0 <= i <= j < |scenes| ==> scenes[i].now <= scenes[j].now
  }

  /** At every pass from `m` on, the rule applied with this duration, the condition was met and the store worked. */
  ghost predicate MetThroughout(scenes: seq<Scene>, k: Key, m: nat, d: int) {
    forall i {:trigger Found(scenes[i], k, d)} :: m <= i < |scenes| ==> Found(scenes[i], k, d)
  }

  ghost predicate Found(sc: Scene, k: Key, d: int) {
    sc.met(k) && sc.fireOk(k) && exists r :: Applies(r, sc, k) && !r.offline && r.duration == Some(d)
  }

  ghost predicate SilentFrom(scenes: seq<Scene>, k: Key, m: nat) {
    forall i {:trigger FiringAfter(scenes[..i], k)} :: m <= i <= |scenes| ==> !FiringAfter(scenes[..i], k)
  }

  lemma {:induction false} FoundIs(sc: Scene, k: Key, d: int)
    requires WellFormed(sc) && Found(sc, k, d)
    ensures PassFor(sc, k).look == Seen(true, d) && PassFor(sc, k).fireOk && PassFor(sc, k).now == sc.now
  {
    var r :| Applies(r, sc, k) && !r.offline && r.duration == Some(d);
    WaitIs(sc, k, r);
  }

  lemma {:induction false} PendingIsPast(scenes: seq<Scene>, k: Key, now: int)
    requires forall i :: 0 <= i < |scenes| ==> scenes[i].now <= now
    ensures After(PassesFor(scenes, k)).pending.Some? ==> After(PassesFor(scenes, k)).pending.value <= now
  {
    var passes := PassesFor(scenes, k);
    PendingMeans(passes);
    if After(passes).pending.Some? {
      var m: nat :| Since(passes, m, After(passes).pending.value);
      assert passes[m].now == scenes[m].now;
    }
  }

  lemma {:induction false} WaitOn(s: KeyState, p: Pass, d: int, since: int)
    requires p.look == Seen(true, d) && p.fireOk && d > 0 && !s.firing && !Next(s, p).firing && since <= p.now
    requires s.pending.Some? ==> s.pending.value <= since
    requires s.pending.None? ==> since == p.now
    ensures Next(s, p).pending.Some? && Next(s, p).pending.value <= since && p.now - Next(s, p).pending.value < d
  {}

  /** Waiting since `since` at the latest, and at `now` not yet for the whole duration. */
  ghost predicate Waiting(s: KeyState, since: int, now: int, d: int) {
    s.pending.Some? && s.pending.value <= since && now - s.pending.value < d
  }

  lemma {:induction false} WaitsOn(scenes: seq<Scene>, sc: Scene, k: Key, d: int, since: int)
    requires WellFormed(sc) && Found(sc, k, d) && d > 0 && since <= sc.now && !FiringAfter(scenes, k) && !FiringAfter(scenes + [sc], k)
    requires var s := After(PassesFor(scenes, k)); if s.pending.Some? then s.pending.value <= since else since == sc.now
    ensures Waiting(After(PassesFor(scenes + [sc], k)), since, sc.now, d)
  {
    PassesMore(scenes, sc, k);
    FoundIs(sc, k, d);
    WaitOn(After(PassesFor(scenes, k)), PassFor(sc, k), d, since);
  }

  lemma {:induction false} FrontSilent(scenes: seq<Scene>, k: Key, m: nat, n: nat)
    requires m <= n <= |scenes| && SilentFrom(scenes, k, m)
    ensures SilentFrom(scenes[..n], k, m) && !FiringAfter(scenes[..n], k)
  {
    forall i | m <= i <= n ensures !FiringAfter(scenes[..n][..i], k) {
      assert scenes[..n][..i] == scenes[..i] && !FiringAfter(scenes[..i], k);
    }
    assert scenes[..n][..n] == scenes[..n];
  }

  lemma {:induction false} FrontMet(scenes: seq<Scene>, k: Key, m: nat, n: nat, d: int)
    requires m < n <= |scenes| && MetThroughout(scenes, k, m, d)
    ensures MetThroughout(scenes[..n], k, m, d) && Found(scenes[n - 1], k, d)
  {
    forall i | m <= i < n ensures Found(scenes[..n][i], k, d) { assert Found(scenes[i], k, d); }
  }

  /** While it does not fire, it waits since pass `m` at the latest. */
  lemma {:induction false} WaitsSince(scenes: seq<Scene>, k: Key, m: nat, n: nat, d: int)
    requires AllWellFormed(scenes) && InOrder(scenes) && m < n <= |scenes| && d > 0 && MetThroughout(scenes, k, m, d) && SilentFrom(scenes, k, m)
    ensures Waiting(After(PassesFor(scenes[..n], k)), scenes[m].now, scenes[n - 1].now, d)
    decreases n
  {
    FrontMet(scenes, k, m, n, d);
    FrontSilent(scenes, k, m, n);
    FrontSilent(scenes, k, m, n - 1);
    if m < n - 1 { WaitsSince(scenes, k, m, n - 1, d); } else { PendingIsPast(scenes[..n - 1], k, scenes[m].now); }
    assert scenes[..n] == scenes[..n - 1] + [scenes[n - 1]];
    WaitsOn(scenes[..n - 1], scenes[n - 1], k, d, scenes[m].now);
  }

  /** If an alert was not firing before pass `m`, and from there on every pass finds its rule with the same duration, its
      condition met and the store working, then it has fired by the time the duration is over. */
  lemma {:induction false} FiresInTime(scenes: seq<Scene>, k: Key, m: nat, d: int)
    requires AllWellFormed(scenes) && InOrder(scenes) && m < |scenes| && d > 0 && MetThroughout(scenes, k, m, d)
    requires !FiringAfter(scenes[..m], k) && scenes[|scenes| - 1].now - scenes[m].now >= d
    ensures exists i :: m < i <= |scenes| && FiringAfter(scenes[..i], k)
  {
    if forall i :: m < i <= |scenes| ==> !FiringAfter(scenes[..i], k) {
      forall i | m <= i <= |scenes| ensures !FiringAfter(scenes[..i], k) {}
      WaitsSince(scenes, k, m, |scenes|, d);
    }
  }
}
