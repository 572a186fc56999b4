/** Alert evaluation for one rule and probe: what each pass does with it, and what holds over whole histories of passes. */
module Alerts {
  import opened Text

  datatype Key = Key(rule: string, probe: string)

  /** What a pass sees of a key. It is looked at when its rule is enabled, has a readable duration and matches the tags of
      the probe, which is there. `wait` is the duration that the condition has to persist, 0 for the offline condition,
      which measures its own. */
  datatype Look = Absent(enabled: bool) | Seen(met: bool, wait: int)

  /** The pending time and whether an alert is firing. */
  datatype KeyState = KeyState(pending: Option<int>, firing: bool)

  /** One pass for one key; the two flags say whether the store accepts the event it would write. */
  datatype Pass = Pass(look: Look, now: int, fireOk: bool, resolveOk: bool)

  predicate Matched(pending: Option<int>, look: Look, now: int) {
    look.Seen? && look.met && (look.wait <= 0 || (pending.Some? && now - pending.value >= look.wait))
  }

  /** The pending time after the scan over rules and probes. */
  function PendingScan(pending: Option<int>, look: Look, now: int): Option<int> {
    match look
    case Absent(_) => pending
    case Seen(met, wait) =>
      if !met then None
      else if wait > 0 && pending.None? then Some(now)
      else if wait > 0 && now - pending.value < wait then pending
      else None
  }

  predicate Fires(s: KeyState, p: Pass) {
    Matched(s.pending, p.look, p.now) && !s.firing && p.fireOk
  }

  predicate Resolves(s: KeyState, p: Pass) {
    !Matched(s.pending, p.look, p.now) && s.firing && p.resolveOk
  }

  function Next(s: KeyState, p: Pass): KeyState {
    KeyState(
      if Resolves(s, p) || p.look == Absent(false) then None else PendingScan(s.pending, p.look, p.now),
      (s.firing || Fires(s, p)) && !Resolves(s, p))
  }

  // ---- histories ----

  const START := KeyState(None, false)

  function After(passes: seq<Pass>): KeyState {
    if passes == [] then START else Next(After(passes[..|passes| - 1]), passes[|passes| - 1])
  }

  /** From pass `m` on, every pass that looked at the key found the condition met. */
  ghost predicate PersistsFrom(passes: seq<Pass>, m: nat) {
    forall i :: m <= i < |passes| && passes[i].look.Seen? ==> passes[i].look.met
  }

  ghost predicate Since(passes: seq<Pass>, m: nat, t: int) {
    m < |passes| && passes[m].now == t && passes[m].look.Seen? && PersistsFrom(passes, m)
  }

  /** A pending time is the time of a pass since which the condition persists. */
  lemma {:induction false} PendingMeans(passes: seq<Pass>)
    ensures After(passes).pending.Some? ==> exists m: nat :: Since(passes, m, After(passes).pending.value)
  {
    if passes != [] && After(passes).pending.Some? {
      var front, last := passes[..|passes| - 1], passes[|passes| - 1];
      PendingMeans(front);
      if After(front).pending == After(passes).pending && !(last.look.Seen? && After(front).pending.None?) {
        var m: nat :| Since(front, m, After(passes).pending.value);
        assert Since(passes, m, After(passes).pending.value);
      } else {
        assert Since(passes, |passes| - 1, last.now);
      }
    }
  }

  /** An alert of a rule with a duration only fires when its condition has persisted that long: an earlier pass, at least
      the duration ago, saw the condition met, and no pass since then saw it unmet. */
  lemma {:induction false} FiresOnlyAfterPersisting(passes: seq<Pass>, p: Pass)
    requires Fires(After(passes), p) && p.look.wait > 0
    ensures exists m: nat :: m < |passes| && p.now - passes[m].now >= p.look.wait && PersistsFrom(passes + [p], m)
  {
    PendingMeans(passes);
    var m: nat :| Since(passes, m, After(passes).pending.value);
    assert PersistsFrom(passes + [p], m);
  }

  ghost predicate Steady(passes: seq<Pass>, wait: int) {
    forall i :: 0 <= i < |passes| ==> passes[i].look == Seen(true, wait) && passes[i].fireOk && passes[i].resolveOk
  }

  /** While the condition stays met and the store works, an alert is firing after every pass if its rule has no duration to
      wait for. A rule with one forgets its pending time when it fires, so the next pass starts to wait again and resolves
      the alert: it is never firing after two passes in a row. */
  lemma {:induction false} SteadyConditionFlaps(passes: seq<Pass>, wait: int)
    requires Steady(passes, wait) && passes != []
    ensures wait <= 0 ==> After(passes).firing
    ensures wait > 0 ==> !(After(passes[..|passes| - 1]).firing && After(passes).firing)
    ensures After(passes).firing ==> After(passes).pending.None?
  {
    var front := passes[..|passes| - 1];
    if front != [] { SteadyConditionFlaps(front, wait); }
  }

  /** A pass that finds the condition met and the store working. */
  function MetAt(now: int, wait: int): Pass {
    Pass(Seen(true, wait), now, true, true)
  }

  /** It does fire, and it does stop: met at three passes, the second one late enough, it is firing after the second pass
      and not after the third, whenever that comes. */
  lemma {:induction false} FiresThenResolves(t: int, wait: int, second: int, third: int)
    requires wait > 0 && second - t >= wait
    ensures var passes := [MetAt(t, wait), MetAt(second, wait), MetAt(third, wait)];
            Steady(passes, wait) && !After(passes[..1]).firing && After(passes[..2]).firing && !After(passes).firing
  {
    var passes := [MetAt(t, wait), MetAt(second, wait), MetAt(third, wait)];
    assert passes[..1][..0] == [] && passes[..2][..1] == passes[..1] && passes[..3] == passes;
    assert After(passes[..1]) == KeyState(Some(t), false);
    assert After(passes[..2]) == KeyState(None, true);
  }
}
