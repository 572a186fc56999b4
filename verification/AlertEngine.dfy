/** The alert engine: its maps, the event table behind them and the loops of Evaluate. */
module AlertEngine {
  import opened Text
  import opened Alerts

  /** An alert rule; a duration that does not parse is None. */
  datatype Rule = Rule(id: string, enabled: bool, duration: Option<int>, offline: bool)

  /** A row of alert_events. */
  datatype Event = Event(id: nat, key: Key, firing: bool)

  /** Everything one pass reads: rules and probes, the tag match, the conditions, the clock, and which writes succeed. */
  datatype Scene = Scene(rules: seq<Rule>, probes: seq<string>, tagged: Key -> bool, met: Key -> bool, now: int,
                         fireOk: Key -> bool, resolveOk: Key -> bool)

  ghost predicate WellFormed(sc: Scene) {
    && (forall i, j :: 0 <= i < j < |sc.rules| ==> sc.rules[i].id != sc.rules[j].id)
    && (forall i, j :: 0 <= i < j < |sc.probes| ==> sc.probes[i] != sc.probes[j])
  }

  function WaitOf(r: Rule): int
    requires r.duration.Some?
  {
    if r.offline then 0 else r.duration.value
  }

  ghost predicate HasRule(rules: seq<Rule>, id: string) {
    exists i :: 0 <= i < |rules| && rules[i].id == id
  }

  ghost function RuleAt(rules: seq<Rule>, id: string): Rule
    requires HasRule(rules, id)
  {
    var i :| 0 <= i < |rules| && rules[i].id == id;
    rules[i]
  }

  ghost predicate Enabled(sc: Scene, id: string) {
    HasRule(sc.rules, id) && RuleAt(sc.rules, id).enabled
  }

  /** What the pass sees of a key. */
  ghost function LookAt(sc: Scene, k: Key): Look {
    if Enabled(sc, k.rule) && RuleAt(sc.rules, k.rule).duration.Some? && k.probe in sc.probes && sc.tagged(k)
    then Seen(sc.met(k), WaitOf(RuleAt(sc.rules, k.rule)))
    else Absent(Enabled(sc, k.rule))
  }

  ghost function PassFor(sc: Scene, k: Key): Pass {
    Pass(LookAt(sc, k), sc.now, sc.fireOk(k), sc.resolveOk(k))
  }

  lemma {:induction false} RuleAtIs(rules: seq<Rule>, i: nat)
    requires i < |rules| && forall a, b :: 0 <= a < b < |rules| ==> rules[a].id != rules[b].id
    ensures HasRule(rules, rules[i].id) && RuleAt(rules, rules[i].id) == rules[i]
  {}

  /** What the loops change. */
  datatype Snap = Snap(pending: map<Key, int>, firing: set<Key>, sent: map<Key, seq<bool>>)

  ghost function StateIn(n: Snap, k: Key): KeyState {
    KeyState(if k in n.pending then Some(n.pending[k]) else None, k in n.firing)
  }

  ghost function SentIn(n: Snap, k: Key): seq<bool> {
    if k in n.sent then n.sent[k] else []
  }

  ghost predicate Alike(k: Key, a: Snap, b: Snap) {
    StateIn(b, k) == StateIn(a, k) && SentIn(b, k) == SentIn(a, k)
  }

  /** What the scan does to a key. */
  ghost predicate ScannedOnce(k: Key, p: Pass, a: Snap, b: Snap, hit: bool) {
    var s := StateIn(a, k);
    && StateIn(b, k) == KeyState(PendingScan(s.pending, p.look, p.now), s.firing || Fires(s, p))
    && SentIn(b, k) == SentIn(a, k) + (if Fires(s, p) then [true] else [])
    && hit == Matched(s.pending, p.look, p.now)
  }

  /** The scan has dealt with the key, as far as the pass sees it. */
  ghost predicate Scanned(sc: Scene, k: Key, a: Snap, b: Snap, matched: set<Key>) {
    ScannedOnce(k, PassFor(sc, k), a, b, k in matched)
  }

  ghost predicate Untouched(k: Key, a: Snap, b: Snap, matched: set<Key>) {
    Alike(k, a, b) && k !in matched
  }

  lemma {:induction false} AbsentIsUntouched(sc: Scene, k: Key, a: Snap, b: Snap, matched: set<Key>)
    requires LookAt(sc, k).Absent? && Untouched(k, a, b, matched)
    ensures Scanned(sc, k, a, b, matched)
  {
    assert SentIn(a, k) + [] == SentIn(a, k);
  }

  ghost predicate UpTo(sc: Scene, i: nat, a: Snap, b: Snap, matched: set<Key>)
    requires i <= |sc.rules|
  {
    forall k: Key :: if HasRule(sc.rules[..i], k.rule) then Scanned(sc, k, a, b, matched) else Untouched(k, a, b, matched)
  }

  lemma {:induction false} RulesMore(rules: seq<Rule>, i: nat)
    requires i < |rules| && forall a, b :: 0 <= a < b < |rules| ==> rules[a].id != rules[b].id
    ensures !HasRule(rules[..i], rules[i].id)
    ensures forall id :: HasRule(rules[..i + 1], id) <==> HasRule(rules[..i], id) || id == rules[i].id
  {
    forall id ensures HasRule(rules[..i + 1], id) <==> HasRule(rules[..i], id) || id == rules[i].id {
      if HasRule(rules[..i], id) {
        var a :| 0 <= a < i && rules[..i][a].id == id;
        assert rules[..i + 1][a].id == id;
      }
      assert rules[..i + 1][i] == rules[i];
    }
  }

  lemma {:induction false} RuleScanned(sc: Scene, i: nat, a: Snap, b: Snap, c: Snap, found: set<Key>, hits: set<Key>)
    requires WellFormed(sc) && i < |sc.rules| && UpTo(sc, i, a, b, found)
    requires forall k: Key :: if k.rule == sc.rules[i].id then Scanned(sc, k, b, c, hits) else Untouched(k, b, c, hits)
    ensures UpTo(sc, i + 1, a, c, found + hits)
  {
    RulesMore(sc.rules, i);
    forall k: Key
      ensures if HasRule(sc.rules[..i + 1], k.rule) then Scanned(sc, k, a, c, found + hits) else Untouched(k, a, c, found + hits)
    {
      if k.rule == sc.rules[i].id {
        assert Untouched(k, a, b, found) && Scanned(sc, k, b, c, hits);
      } else {
        assert Untouched(k, b, c, hits);
        if HasRule(sc.rules[..i], k.rule) { assert Scanned(sc, k, a, b, found); } else { assert Untouched(k, a, b, found); }
      }
    }
  }

  lemma {:induction false} RulePassedOver(sc: Scene, i: nat, a: Snap, b: Snap, matched: set<Key>)
    requires WellFormed(sc) && i < |sc.rules| && UpTo(sc, i, a, b, matched) && (!sc.rules[i].enabled || sc.rules[i].duration.None?)
    ensures UpTo(sc, i + 1, a, b, matched)
  {
    RulesMore(sc.rules, i);
    RuleAtIs(sc.rules, i);
    forall k: Key
      ensures if HasRule(sc.rules[..i + 1], k.rule) then Scanned(sc, k, a, b, matched) else Untouched(k, a, b, matched)
    {
      if k.rule == sc.rules[i].id { AbsentIsUntouched(sc, k, a, b, matched); }
    }
  }

  /** What the resolving loop does to a key. */
  ghost predicate Settled(sc: Scene, k: Key, a: Snap, b: Snap, matched: set<Key>) {
    var resolves := k in a.firing && k !in matched && sc.resolveOk(k);
    && StateIn(b, k) == (if resolves then START else StateIn(a, k))
    && SentIn(b, k) == SentIn(a, k) + (if resolves then [false] else [])
  }

  /** The notifications of one pass for one key. */
  function Notes(s: KeyState, p: Pass): seq<bool> {
    if Fires(s, p) then [true] else if Resolves(s, p) then [false] else []
  }

  lemma {:induction false} PassComposes(sc: Scene, k: Key, a: Snap, b: Snap, c: Snap, matched: set<Key>)
    requires Scanned(sc, k, a, b, matched) && Settled(sc, k, b, c, matched)
    ensures var s, p := StateIn(a, k), PassFor(sc, k);
            && StateIn(c, k).firing == Next(s, p).firing
            && (if Enabled(sc, k.rule) then StateIn(c, k).pending else None) == Next(s, p).pending
            && SentIn(c, k) == SentIn(a, k) + Notes(s, p)
  {
    assert SentIn(b, k) + [] == SentIn(b, k) && SentIn(a, k) + [] == SentIn(a, k);
  }

  class Engine {
    var firing: map<Key, nat>
    var pending: map<Key, int>
    var events: map<nat, Event>
    var nextId: nat
    // The notifications delivered for each key: true for fired, false for resolved.
    ghost var sent: map<Key, seq<bool>>

    ghost function SentOf(k: Key): seq<bool> reads this`sent {
      if k in sent then sent[k] else []
    }

    ghost function PendingOf(k: Key): Option<int> reads this`pending {
      if k in pending then Some(pending[k]) else None
    }

    ghost function StateOf(k: Key): KeyState reads this`pending, this`firing {
      KeyState(PendingOf(k), k in firing)
    }

    /** The firing map is exactly the set of stored events that are firing, one for each key, and the notifications of a
        key alternate, ending with the one that says whether it is firing. */
    ghost predicate Valid() reads this`firing, this`events, this`nextId, this`sent {
      && (forall k :: k in firing ==> firing[k] in events && events[firing[k]] == Event(firing[k], k, true))
      && (forall id :: id in events && events[id].firing ==> events[id].key in firing && firing[events[id].key] == id)
      && (forall id :: id in events ==> id < nextId)
      && (forall k {:trigger SentOf(k)} :: Alternates(SentOf(k)) && (k in firing <==> |SentOf(k)| % 2 == 1))
    }

    constructor ()
      ensures Valid() && forall k :: StateOf(k) == START && SentOf(k) == []
    {
      firing, pending, events, nextId := map[], map[], map[], 0;
      sent := map[];
    }

    /** Store a firing event, remember it and notify; nothing happens when the store refuses it. */
    method Fire(k: Key, ok: bool)
      requires Valid() && k !in firing
      modifies this`firing, this`events, this`nextId, this`sent
      ensures Valid() && firing.Keys == (if ok then old(firing.Keys) + {k} else old(firing.Keys))
      ensures SentOf(k) == old(SentOf(k)) + (if ok then [true] else [])
      ensures forall q :: q != k ==> SentOf(q) == old(SentOf(q))
    {
      var id := nextId;
      nextId := nextId + 1;
      if ok {
        ghost var before := SentOf(k);
        events := events[id := Event(id, k, true)];
        firing := firing[k := id];
        sent := sent[k := before + [true]];
        AlternatesMore(before);
        forall q ensures Alternates(SentOf(q)) && (q in firing <==> |SentOf(q)| % 2 == 1) {
          assert old(Alternates(SentOf(q)));
        }
      }
    }

    /** Store the event as resolved, forget it and notify. */
    method Resolve(k: Key, ok: bool)
      requires Valid() && k in firing
      modifies this`firing, this`pending, this`events, this`sent
      ensures Valid() && firing.Keys == (if ok then old(firing.Keys) - {k} else old(firing.Keys))
      ensures pending == if ok then old(pending) - {k} else old(pending)
      ensures SentOf(k) == old(SentOf(k)) + (if ok then [false] else [])
      ensures forall q :: q != k ==> SentOf(q) == old(SentOf(q))
    {
      if ok {
        ghost var before := SentOf(k);
        events := events[firing[k] := Event(firing[k], k, false)];
        firing := firing - {k};
        pending := pending - {k};
        sent := sent[k := before + [false]];
        AlternatesMore(before);
        forall q ensures Alternates(SentOf(q)) && (q in firing <==> |SentOf(q)| % 2 == 1) {
          assert old(Alternates(SentOf(q)));
        }
      }
    }

    ghost function Now(): Snap reads this`pending, this`firing, this`sent {
      Snap(pending, firing.Keys, sent)
    }

    /** One enabled rule and one probe with matching tags. */
    method ScanPair(k: Key, met: bool, wait: int, now: int, ok: bool) returns (matched: bool)
      requires Valid()
      modifies this`firing, this`pending, this`events, this`nextId, this`sent
      ensures Valid()
      ensures ScannedOnce(k, Pass(Seen(met, wait), now, ok, false), old(Now()), Now(), matched)
      ensures forall q :: q != k ==> Alike(q, old(Now()), Now())
    {
      if !met {
        pending := pending - {k};
        return false;
      }
      if wait > 0 {
        if k !in pending {
          pending := pending[k := now];
          return false;
        }
        if now - pending[k] < wait { return false; }
      }
      pending := pending - {k};
      if k !in firing { Fire(k, ok); }
      matched := true;
      forall q | q != k ensures Alike(q, old(Now()), Now()) { assert SentOf(q) == old(SentOf(q)); }
      assert SentOf(k) == SentIn(Now(), k);
    }

    /** The probes of one enabled rule. */
    method ScanProbes(sc: Scene, i: nat) returns (matched: set<Key>)
      requires Valid() && WellFormed(sc) && i < |sc.rules| && sc.rules[i].enabled && sc.rules[i].duration.Some?
      modifies this`firing, this`pending, this`events, this`nextId, this`sent
      ensures Valid()
      ensures forall k: Key :: if k.rule == sc.rules[i].id then Scanned(sc, k, old(Now()), Now(), matched) else Untouched(k, old(Now()), Now(), matched)
    {
      var r := sc.rules[i];
      RuleAtIs(sc.rules, i);
      matched := {};
      for j := 0 to |sc.probes|
        invariant Valid()
        invariant forall k: Key :: if k.rule == r.id && k.probe in sc.probes[..j] then Scanned(sc, k, old(Now()), Now(), matched) else Untouched(k, old(Now()), Now(), matched)
      {
        var k := Key(r.id, sc.probes[j]);
        assert sc.probes[..j + 1] == sc.probes[..j] + [sc.probes[j]];
        assert k.probe !in sc.probes[..j];
        ghost var before, found := Now(), matched;
        if sc.tagged(k) {
          assert LookAt(sc, k) == Seen(sc.met(k), WaitOf(r));
          var hit := ScanPair(k, sc.met(k), WaitOf(r), sc.now, sc.fireOk(k));
          if hit { matched := matched + {k}; }
        } else {
          AbsentIsUntouched(sc, k, old(Now()), Now(), matched);
        }
        forall q: Key
          ensures if q.rule == r.id && q.probe in sc.probes[..j + 1] then Scanned(sc, q, old(Now()), Now(), matched) else Untouched(q, old(Now()), Now(), matched)
        {
          if q == k {
            assert Untouched(k, old(Now()), before, found);
          } else {
            assert Alike(q, before, Now()) && (q in matched <==> q in found);
          }
        }
      }
      assert sc.probes[..|sc.probes|] == sc.probes;
    }

    /** The scan over all rules. */
    method ScanRules(sc: Scene) returns (matched: set<Key>, enabled: set<string>)
      requires Valid() && WellFormed(sc)
      modifies this`firing, this`pending, this`events, this`nextId, this`sent
      ensures Valid()
      ensures forall k :: Scanned(sc, k, old(Now()), Now(), matched)
      ensures forall id :: id in enabled <==> Enabled(sc, id)
    {
      matched, enabled := {}, {};
      for i := 0 to |sc.rules|
        invariant Valid()
        invariant UpTo(sc, i, old(Now()), Now(), matched)
        invariant forall id :: id in enabled <==> HasRule(sc.rules[..i], id) && Enabled(sc, id)
      {
        var r := sc.rules[i];
        RuleAtIs(sc.rules, i);
        RulesMore(sc.rules, i);
        ghost var before, found := Now(), matched;
        if r.enabled {
          enabled := enabled + {r.id};
          if r.duration.Some? {
            var hits := ScanProbes(sc, i);
            matched := matched + hits;
            RuleScanned(sc, i, old(Now()), before, Now(), found, hits);
          } else {
            RulePassedOver(sc, i, old(Now()), Now(), matched);
          }
        } else {
          RulePassedOver(sc, i, old(Now()), Now(), matched);
        }
      }
      assert sc.rules[..|sc.rules|] == sc.rules;
      forall k ensures Scanned(sc, k, old(Now()), Now(), matched) {
        if !HasRule(sc.rules, k.rule) { AbsentIsUntouched(sc, k, old(Now()), Now(), matched); }
      }
    }

    /** The loop over the firing alerts: those that did not match are resolved. */
    method ResolveStale(sc: Scene, matched: set<Key>)
      requires Valid()
      modifies this`firing, this`pending, this`events, this`sent
      ensures Valid()
      ensures forall k :: Settled(sc, k, old(Now()), Now(), matched)
    {
      var todo := firing.Keys;
      while todo != {}
        invariant Valid() && todo <= firing.Keys
        invariant forall k :: if k in todo then Alike(k, old(Now()), Now()) else Settled(sc, k, old(Now()), Now(), matched)
        decreases todo
      {
        var k :| k in todo;
        ghost var before := Now();
        if k !in matched { Resolve(k, sc.resolveOk(k)); }
        todo := todo - {k};
        forall q ensures if q in todo then Alike(q, old(Now()), Now()) else Settled(sc, q, old(Now()), Now(), matched) {
          assert SentOf(q) == SentIn(Now(), q);
          if q != k { assert Alike(q, before, Now()); }
        }
      }
    }

    /** The last loop: nothing stays pending for a rule that is not enabled. */
    method DropDisabled(enabled: set<string>)
      modifies this`pending
      ensures forall k :: PendingOf(k) == if k.rule in enabled then old(PendingOf(k)) else None
    {
      var todo := pending.Keys;
      while todo != {}
        invariant todo <= pending.Keys
        invariant forall k :: PendingOf(k) == if k in todo || k.rule in enabled then old(PendingOf(k)) else None
        decreases todo
      {
        var k :| k in todo;
        if k.rule !in enabled { pending := pending - {k}; }
        todo := todo - {k};
      }
    }

    /** Evaluate: for every rule and probe the pass does what the state machine of the key does, whichever writes fail. */
    method Evaluate(sc: Scene)
      requires Valid() && WellFormed(sc)
      modifies this
      ensures Valid()
      ensures forall k :: StateOf(k) == Next(old(StateOf(k)), PassFor(sc, k))
      ensures forall k :: SentOf(k) == old(SentOf(k)) + Notes(old(StateOf(k)), PassFor(sc, k))
    {
      ghost var a := Now();
      var matched, enabled := ScanRules(sc);
      ghost var b := Now();
      ResolveStale(sc, matched);
      ghost var c := Now();
      DropDisabled(enabled);
      forall k
        ensures StateOf(k) == Next(old(StateOf(k)), PassFor(sc, k))
        ensures SentOf(k) == old(SentOf(k)) + Notes(old(StateOf(k)), PassFor(sc, k))
      {
        PassComposes(sc, k, a, b, c, matched);
        assert StateIn(a, k) == old(StateOf(k)) && SentIn(a, k) == old(SentOf(k));
        assert PendingOf(k) == if k.rule in enabled then StateIn(c, k).pending else None;
      }
    }

    /** Opening the engine again: the firing map is loaded from the event table, and nothing is pending. */
    method Reload()
      requires Valid()
      modifies this`firing, this`pending
      ensures Valid() && firing == old(firing) && pending == map[]
    {
      var loaded: map<Key, nat> := map[];
      var todo := events.Keys;
      while todo != {}
        invariant todo <= events.Keys
        invariant forall k :: k in loaded ==> k in firing && loaded[k] == firing[k]
        invariant forall id :: id in events && id !in todo && events[id].firing ==> events[id].key in loaded
        decreases todo
      {
        var id :| id in todo;
        if events[id].firing { loaded := loaded[events[id].key := id]; }
        todo := todo - {id};
      }
      assert loaded == firing;
      firing, pending := loaded, map[];
    }
  }

  /** Fired, resolved, fired, ... */
  predicate Alternates(s: seq<bool>) {
    forall i :: 0 <= i < |s| ==> s[i] == (i % 2 == 0)
  }

  lemma {:induction false} AlternatesMore(s: seq<bool>)
    requires Alternates(s)
    ensures Alternates(s + [|s| % 2 == 0])
  {}
}
