/** The signed audit chain: how rows are sealed, verified and purged, and what a verified chain proves. */
module AuditChain {
  import opened Text

  datatype Entry = Entry(id: string, ts: string, body: string)

  /** A row of audit_events; both hashes are empty in a row written without chain mode. */
  datatype Row = Row(entry: Entry, prev: string, hash: string)

  /** The anchor of the first signed row, the keyed hash of a previous hash and a payload, and the canonical payload of an
      entry: as it is sealed, and as it is rebuilt from the stored row. */
  datatype Crypto = Crypto(genesis: string, seal: (string, string) -> string, sealed: Entry -> string, reread: Entry -> string)

  predicate Unsigned(r: Row) { r.prev == "" && r.hash == "" }

  predicate Signed(r: Row) { r.prev != "" && r.hash != "" }

  // ---- verification ----

  /** One row of VerifyChain, for the hash the row before it leaves behind. */
  predicate Holds(c: Crypto, r: Row, expected: string) {
    Signed(r) && r.prev == expected && r.hash == c.seal(r.prev, c.reread(r.entry))
  }

  function Expected(c: Crypto, s: seq<Row>, i: nat): string
    requires i <= |s|
  {
    if i == 0 || Unsigned(s[i - 1]) then c.genesis else s[i - 1].hash
  }

  /** Unsigned rows come first; from then on every row is signed and continues the one before. */
  ghost predicate Accepts(c: Crypto, s: seq<Row>) {
    forall i :: 0 <= i < |s| ==> RowOk(c, s, i)
  }

  predicate RowOk(c: Crypto, s: seq<Row>, i: nat)
    requires i < |s|
  {
    if Unsigned(s[i]) then i == 0 || Unsigned(s[i - 1]) else Holds(c, s[i], Expected(c, s, i))
  }

  /** The loop of VerifyChain over the ordered rows. */
  method VerifyChain(c: Crypto, s: seq<Row>) returns (valid: bool, checked: nat, firstInvalid: nat)
    ensures valid <==> Accepts(c, s)
    ensures !valid ==> firstInvalid < |s| && !RowOk(c, s, firstInvalid) && Accepts(c, s[..firstInvalid])
    ensures valid ==> checked == |SignedOf(s)|
  {
    valid, checked, firstInvalid := true, 0, 0;
    var signedStarted, expected := false, c.genesis;
    for i := 0 to |s|
      invariant valid && forall j :: 0 <= j < i ==> RowOk(c, s, j)
      invariant signedStarted <==> i > 0 && !Unsigned(s[i - 1])
      invariant signedStarted ==> expected == s[i - 1].hash
      invariant checked == |SignedOf(s[..i])|
    {
      SignedOfNext(s, i);
      var r := s[i];
      if r.prev == "" && r.hash == "" {
        if signedStarted {
          valid, firstInvalid := false, i;
          assert !RowOk(c, s, i);
          PrefixOk(c, s, i);
          return;
        }
        continue;
      }
      if r.prev == "" || r.hash == "" {
        valid, firstInvalid := false, i;
        assert !RowOk(c, s, i);
        PrefixOk(c, s, i);
        return;
      }
      if !signedStarted { signedStarted, expected := true, c.genesis; }
      if r.prev != expected {
        valid, firstInvalid := false, i;
        assert !RowOk(c, s, i);
        PrefixOk(c, s, i);
        return;
      }
      checked := checked + 1;
      if r.hash != c.seal(r.prev, c.reread(r.entry)) {
        valid, firstInvalid := false, i;
        assert !RowOk(c, s, i);
        PrefixOk(c, s, i);
        return;
      }
      expected := r.hash;
    }
    assert s[..|s|] == s;
  }

  lemma {:induction false} PrefixOk(c: Crypto, s: seq<Row>, n: nat)
    requires n <= |s| && forall j :: 0 <= j < n ==> RowOk(c, s, j)
    ensures Accepts(c, s[..n])
  {
    forall i | 0 <= i < n ensures RowOk(c, s[..n], i) { assert RowOk(c, s, i); }
  }

  function SignedOf(s: seq<Row>): seq<Row> {
    if s == [] then [] else SignedOf(s[..|s| - 1]) + if Signed(s[|s| - 1]) then [s[|s| - 1]] else []
  }

  lemma {:induction false} SignedOfNext(s: seq<Row>, i: nat)
    requires i < |s|
    ensures SignedOf(s[..i + 1]) == SignedOf(s[..i]) + if Signed(s[i]) then [s[i]] else []
  {
    assert s[..i + 1][..i] == s[..i];
  }

  // ---- the signed rows of a table ----

  predicate TwoKinds(s: seq<Row>) {
    forall i :: 0 <= i < |s| ==> Signed(s[i]) || Unsigned(s[i])
  }

  ghost predicate UnsignedFirst(s: seq<Row>) {
    forall i, j :: 0 <= i < j < |s| && Unsigned(s[j]) ==> Unsigned(s[i])
  }

  function LastHash(c: Crypto, s: seq<Row>): string {
    if s == [] then c.genesis else s[|s| - 1].hash
  }

  /** Each row continues the one before it, the first one the anchor. */
  ghost predicate Chained(c: Crypto, s: seq<Row>) {
    s == [] || (Holds(c, s[|s| - 1], LastHash(c, s[..|s| - 1])) && Chained(c, s[..|s| - 1]))
  }

  lemma {:induction false} ChainedAt(c: Crypto, s: seq<Row>)
    ensures Chained(c, s) <==> forall i :: 0 <= i < |s| ==> HoldsAt(c, s, i)
  {
    if s != [] {
      var front := s[..|s| - 1];
      ChainedAt(c, front);
      assert HoldsAt(c, s, |front|) <==> Holds(c, s[|front|], LastHash(c, front));
      assert forall i :: 0 <= i < |front| ==> (HoldsAt(c, front, i) <==> HoldsAt(c, s, i));
      if Chained(c, s) {
        forall i | 0 <= i < |s| ensures HoldsAt(c, s, i) { if i < |front| { assert HoldsAt(c, front, i); } }
      }
    }
  }

  predicate HoldsAt(c: Crypto, s: seq<Row>, i: nat)
    requires i < |s|
  {
    Holds(c, s[i], if i == 0 then c.genesis else s[i - 1].hash)
  }

  lemma {:induction false} NoneSigned(s: seq<Row>, n: nat)
    requires n <= |s| && forall i :: 0 <= i < n ==> Unsigned(s[i])
    ensures SignedOf(s[..n]) == []
  {
    if n > 0 {
      NoneSigned(s, n - 1);
      SignedOfNext(s, n - 1);
    }
  }

  lemma {:induction false} SignedMoreSlice(s: seq<Row>, u: nat, n: nat)
    requires u < n <= |s| && Signed(s[n - 1]) && SignedOf(s[..n - 1]) == s[u..n - 1]
    ensures SignedOf(s[..n]) == s[u..n]
  {
    SignedOfNext(s, n - 1);
    assert s[u..n - 1] + [s[n - 1]] == s[u..n];
  }

  lemma {:induction false} SignedPrefix(s: seq<Row>, n: nat) returns (u: nat)
    requires UnsignedFirst(s) && TwoKinds(s) && n <= |s|
    ensures u <= n && SignedOf(s[..n]) == s[u..n]
    ensures (forall i :: 0 <= i < u ==> Unsigned(s[i])) && (forall i :: u <= i < n ==> Signed(s[i]))
  {
    if n == 0 {
      u := 0;
    } else if Unsigned(s[n - 1]) {
      u := n;
      NoneSigned(s, n);
    } else {
      u := SignedPrefix(s, n - 1);
      SignedMoreSlice(s, u, n);
    }
  }

  lemma {:induction false} SignedSuffix(s: seq<Row>) returns (u: nat)
    requires UnsignedFirst(s) && TwoKinds(s)
    ensures u <= |s| && SignedOf(s) == s[u..]
    ensures (forall i :: 0 <= i < u ==> Unsigned(s[i])) && (forall i :: u <= i < |s| ==> Signed(s[i]))
  {
    u := SignedPrefix(s, |s|);
    assert s[..|s|] == s && s[u..|s|] == s[u..];
  }

  lemma {:induction false} AcceptsUnsignedFirst(c: Crypto, s: seq<Row>, i: nat, j: nat)
    requires Accepts(c, s) && i <= j < |s| && Unsigned(s[j])
    ensures Unsigned(s[i])
    decreases j
  {
    if i < j {
      assert RowOk(c, s, j);
      AcceptsUnsignedFirst(c, s, i, j - 1);
    }
  }

  /** Behind the unsigned rows, a row is in order exactly when it holds in the chain of the signed ones. */
  lemma {:induction false} RowOkIff(c: Crypto, s: seq<Row>, u: nat, i: nat)
    requires u <= i < |s| && (forall k :: 0 <= k < u ==> Unsigned(s[k])) && (forall k :: u <= k < |s| ==> Signed(s[k]))
    ensures RowOk(c, s, i) <==> HoldsAt(c, s[u..], i - u)
  {
    var t := s[u..];
    assert t[i - u] == s[i];
    if i > u { assert t[i - u - 1] == s[i - 1]; }
  }

  lemma {:induction false} AcceptsSuffix(c: Crypto, s: seq<Row>, u: nat)
    requires u <= |s| && (forall k :: 0 <= k < u ==> Unsigned(s[k])) && (forall k :: u <= k < |s| ==> Signed(s[k]))
    ensures Accepts(c, s) <==> Chained(c, s[u..])
  {
    ChainedAt(c, s[u..]);
    forall i: nat | u <= i < |s| ensures RowOk(c, s, i) <==> HoldsAt(c, s[u..], i - u) { RowOkIff(c, s, u, i); }
    if Chained(c, s[u..]) {
      forall i | 0 <= i < |s| ensures RowOk(c, s, i) { if i >= u { assert HoldsAt(c, s[u..], i - u); } }
    } else {
      var i :| 0 <= i < |s[u..]| && !HoldsAt(c, s[u..], i);
      RowOkIff(c, s, u, u + i);
    }
  }

  /** A table is accepted exactly when its unsigned rows come first and its signed rows are chained. */
  lemma {:induction false} AcceptsIff(c: Crypto, s: seq<Row>)
    requires TwoKinds(s)
    ensures Accepts(c, s) <==> UnsignedFirst(s) && Chained(c, SignedOf(s))
  {
    if Accepts(c, s) {
      forall i, j | 0 <= i < j < |s| && Unsigned(s[j]) ensures Unsigned(s[i]) { AcceptsUnsignedFirst(c, s, i, j); }
    }
    if UnsignedFirst(s) {
      var u := SignedSuffix(s);
      AcceptsSuffix(c, s, u);
    }
  }

  // ---- what the last hash commits to ----

  /** The hash a row should carry. */
  function Seal(c: Crypto, r: Row): string {
    c.seal(r.prev, c.reread(r.entry))
  }

  ghost function RowsOf(s: seq<Row>): set<Row> {
    set r | r in s
  }

  ghost predicate NoClash(c: Crypto, x: Row, y: Row) {
    Seal(c, x) == Seal(c, y) ==> x.prev == y.prev && c.reread(x.entry) == c.reread(y.entry)
  }

  /** Among these rows the keyed hash has no collision and never gives the anchor. */
  ghost predicate Apart(c: Crypto, rows: set<Row>) {
    (forall x, y :: x in rows && y in rows ==> NoClash(c, x, y)) && (forall x :: x in rows ==> Seal(c, x) != c.genesis)
  }

  /** Two chains that end in the same hash hold the same payloads under the same hashes, row for row. */
  lemma {:induction false} Commitment(c: Crypto, a: seq<Row>, b: seq<Row>, all: set<Row>)
    requires Chained(c, a) && Chained(c, b) && LastHash(c, a) == LastHash(c, b)
    requires Apart(c, all) && (forall r :: r in a ==> r in all) && (forall r :: r in b ==> r in all)
    ensures SameSeals(c, a, b)
    decreases |a|
  {
    if a != [] { LastIsMac(c, a, all); }
    if b != [] { LastIsMac(c, b, all); }
    if a != [] && b != [] {
      var x, y := a[|a| - 1], b[|b| - 1];
      var a', b' := a[..|a| - 1], b[..|b| - 1];
      SameSource(c, x, y, all);
      Commitment(c, a', b', all);
      SameSealMore(c, a', b', x, y);
      assert a == a' + [x] && b == b' + [y];
    }
  }

  ghost predicate SameSeals(c: Crypto, a: seq<Row>, b: seq<Row>) {
    |a| == |b| && forall i :: 0 <= i < |a| ==> SameSeal(c, a[i], b[i])
  }

  lemma {:induction false} SameSealMore(c: Crypto, a: seq<Row>, b: seq<Row>, x: Row, y: Row)
    requires SameSeals(c, a, b) && SameSeal(c, x, y)
    ensures SameSeals(c, a + [x], b + [y])
  {}

  predicate SameSeal(c: Crypto, x: Row, y: Row) {
    x.prev == y.prev && x.hash == y.hash && c.reread(x.entry) == c.reread(y.entry)
  }

  lemma {:induction false} SameSource(c: Crypto, x: Row, y: Row, all: set<Row>)
    requires Apart(c, all) && x in all && y in all && x.hash == Seal(c, x) && y.hash == Seal(c, y) && x.hash == y.hash
    ensures SameSeal(c, x, y)
  {
    assert NoClash(c, x, y);
  }

  lemma {:induction false} LastIsMac(c: Crypto, a: seq<Row>, all: set<Row>)
    requires Chained(c, a) && a != [] && Apart(c, all) && forall r :: r in a ==> r in all
    ensures var x := a[|a| - 1];
            x.hash == Seal(c, x) != c.genesis && x in all && x.prev == LastHash(c, a[..|a| - 1])
  {
    assert a[|a| - 1] in all;
  }

  /** Tamper evidence: whatever is done to the rows of an accepted table, if the result is accepted and ends in the same
      hash, its signed rows carry the very same payloads in the same order. */
  lemma {:induction false} TamperEvident(c: Crypto, s: seq<Row>, s': seq<Row>)
    requires TwoKinds(s) && TwoKinds(s') && Accepts(c, s) && Accepts(c, s')
    requires LastHash(c, SignedOf(s)) == LastHash(c, SignedOf(s')) && Apart(c, RowsOf(SignedOf(s)) + RowsOf(SignedOf(s')))
    ensures SameSeals(c, SignedOf(s), SignedOf(s'))
  {
    AcceptsIff(c, s);
    AcceptsIff(c, s');
    Commitment(c, SignedOf(s), SignedOf(s'), RowsOf(SignedOf(s)) + RowsOf(SignedOf(s')));
  }

  // ---- Purge ----

  /** Purge removes a prefix of the ordered rows. What is left verifies if and only if nothing is left or no signed row was
      removed: the first signed row left names one that is gone. */
  lemma {:induction false} PurgeIff(c: Crypto, s: seq<Row>, k: nat)
    requires Accepts(c, s) && TwoKinds(s) && k <= |s| && Apart(c, RowsOf(s))
    ensures Accepts(c, s[k..]) <==> k == |s| || k == 0 || Unsigned(s[k - 1])
  {
    var t := s[k..];
    if k == |s| || k == 0 || Unsigned(s[k - 1]) {
      forall i | 0 <= i < |t| ensures RowOk(c, t, i) {
        assert RowOk(c, s, k + i) && t[i] == s[k + i];
        if i > 0 { assert t[i - 1] == s[k + i - 1]; }
      }
    } else {
      assert RowOk(c, s, k) && RowOk(c, s, k - 1);
      assert s[k - 1] in RowsOf(s) && s[k - 1].hash == Seal(c, s[k - 1]);
      assert t[0] == s[k] && !RowOk(c, t, 0);
    }
  }

  /** The row Record seals behind a hash. */
  function SealedBehind(c: Crypto, prev: string, e: Entry): Row {
    Row(e, prev, c.seal(prev, c.sealed(e)))
  }

  /** Two entries recorded from the start verify together; with the first one purged, the second one does not. */
  lemma {:induction false} PurgeBreaks(c: Crypto, x: Entry, y: Entry)
    requires c.genesis != "" && (forall p, e :: c.seal(p, e) != "") && c.reread(x) == c.sealed(x) && c.reread(y) == c.sealed(y)
    requires c.seal(c.genesis, c.sealed(x)) != c.genesis
    ensures var first := SealedBehind(c, c.genesis, x);
            var second := SealedBehind(c, first.hash, y);
            Accepts(c, [first, second]) && !Accepts(c, [first, second][1..])
  {
    var first := SealedBehind(c, c.genesis, x);
    var second := SealedBehind(c, first.hash, y);
    var s := [first, second];
    assert RowOk(c, s, 0) && RowOk(c, s, 1);
    assert s[1..][0] == second && !RowOk(c, s[1..], 0);
  }

  /** A store that starts without a configured key makes a new one. What the old key signed still verifies if and only if
      the new key happens to give every one of its hashes. */
  lemma {:induction false} NewKeyIff(c: Crypto, c': Crypto, s: seq<Row>)
    requires Accepts(c, s) && c'.genesis == c.genesis
    ensures Accepts(c', s) <==> forall i :: 0 <= i < |s| && !Unsigned(s[i]) ==> Seal(c', s[i]) == s[i].hash
  {
    forall i | 0 <= i < |s| ensures RowOk(c', s, i) <==> Unsigned(s[i]) || Seal(c', s[i]) == s[i].hash { assert RowOk(c, s, i); }
  }

  // ---- the keyed hash itself ----

  /** What ComputeEntryHash hashes. */
  function Message(genesis: string, prev: string, payload: string): string {
    (if Trim(prev) == "" then genesis else Trim(prev)) + "\n" + payload
  }

  /** A hash as it is written: hex digits, so neither blank nor broken over lines. */
  predicate TokenLike(s: string) {
    s != "" && Trimmed(s) && '\n' !in s
  }

  lemma {:induction false} NewlineAt(p: string, x: string, k: nat)
    requires '\n' !in p && k < |p + "\n" + x| && (p + "\n" + x)[k] == '\n'
    ensures k >= |p|
  {
    assert forall i :: 0 <= i < |p| ==> (p + "\n" + x)[i] == p[i] && p[i] in p;
  }

  /** A hash holds no line break, so what is hashed determines both of its parts: two seals clash only where the keyed hash
      of two different texts does. */
  lemma {:induction false} MessageSplits(genesis: string, p: string, x: string, q: string, y: string)
    requires TokenLike(p) && TokenLike(q)
    ensures Message(genesis, p, x) == Message(genesis, q, y) <==> p == q && x == y
  {
    var m, n := p + "\n" + x, q + "\n" + y;
    assert Message(genesis, p, x) == m && Message(genesis, q, y) == n;
    if m == n {
      assert m[|p|] == '\n' && n[|q|] == '\n';
      NewlineAt(p, x, |q|);
      NewlineAt(q, y, |p|);
      assert p == m[..|p|] && q == n[..|q|];
      assert x == m[|p| + 1..] && y == n[|q| + 1..];
    }
  }

  /** The seal is the keyed hash of that text. */
  ghost predicate SealsBy(c: Crypto, mac: string -> string) {
    forall prev, payload :: c.seal(prev, payload) == mac(Message(c.genesis, prev, payload))
  }

  /** Two rows clash if and only if the keyed hash itself gives the same for two different texts. */
  lemma {:induction false} ClashIffHashClash(c: Crypto, mac: string -> string, x: Row, y: Row)
    requires SealsBy(c, mac) && TokenLike(x.prev) && TokenLike(y.prev)
    ensures var m, n := Message(c.genesis, x.prev, c.reread(x.entry)), Message(c.genesis, y.prev, c.reread(y.entry));
            !NoClash(c, x, y) <==> m != n && mac(m) == mac(n)
  {
    MessageSplits(c.genesis, x.prev, c.reread(x.entry), y.prev, c.reread(y.entry));
  }
}
