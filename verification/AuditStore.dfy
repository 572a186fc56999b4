/** The audit store over its whole life, restarts included: exactly when its signed chain verifies. */
module AuditStore {
  import opened Text
  import opened AuditChain

  /** ORDER BY timestamp, id: both as text. */
  predicate KeyLess(a: Entry, b: Entry) {
    StrLess(a.ts, b.ts) || (a.ts == b.ts && StrLess(a.id, b.id))
  }

  lemma {:induction false} KeyAsymmetric(a: Entry, b: Entry)
    ensures !(KeyLess(a, b) && KeyLess(b, a))
  {
    StrLessTotal(a.ts, b.ts);
    StrLessTotal(a.id, b.id);
  }

  ghost predicate InOrder(s: seq<Row>) {
    forall i, j :: 0 <= i < j < |s| ==> KeyLess(s[i].entry, s[j].entry)
  }

  ghost predicate DistinctIds(s: seq<Row>) {
    forall i, j :: 0 <= i < j < |s| ==> s[i].entry.id != s[j].entry.id
  }

  // ---- the signed part of a table ----

  lemma {:induction false} SignedMembers(s: seq<Row>, r: Row)
    ensures r in SignedOf(s) <==> r in s && Signed(r)
  {
    if s != [] {
      var front, last := s[..|s| - 1], s[|s| - 1];
      assert s == front + [last];
      SignedMembers(front, r);
    }
  }

  lemma {:induction false} SignedInOrder(s: seq<Row>)
    requires InOrder(s)
    ensures InOrder(SignedOf(s))
  {
    if s != [] {
      var front, last := s[..|s| - 1], s[|s| - 1];
      SignedInOrder(front);
      forall x | x in SignedOf(front) ensures KeyLess(x.entry, last.entry) { SignedMembers(front, x); }
    }
  }

  lemma {:induction false} SignedDistinct(s: seq<Row>)
    requires DistinctIds(s)
    ensures DistinctIds(SignedOf(s))
  {
    if s != [] {
      var front, last := s[..|s| - 1], s[|s| - 1];
      SignedDistinct(front);
      forall x | x in SignedOf(front) ensures x.entry.id != last.entry.id { SignedMembers(front, x); }
    }
  }

  // ---- two orders of the same rows ----

  ghost predicate SameRows(a: seq<Row>, b: seq<Row>) {
    forall r :: r in a <==> r in b
  }

  lemma {:induction false} NoneIfNone(a: seq<Row>, b: seq<Row>)
    requires SameRows(a, b)
    ensures a == [] <==> b == []
  {
    if a != [] { assert a[0] in b; }
    if b != [] { assert b[0] in a; }
  }

  lemma {:induction false} OrderUnique(a: seq<Row>, b: seq<Row>)
    requires InOrder(a) && InOrder(b) && SameRows(a, b)
    ensures a == b
    decreases |a|
  {
    NoneIfNone(a, b);
    if a != [] {
      var x := a[|a| - 1];
      assert x in b;
      var y := b[|b| - 1];
      LastIsLatest(a, y);
      LastIsLatest(b, x);
      KeyAsymmetric(x.entry, y.entry);
      var a', b' := a[..|a| - 1], b[..|b| - 1];
      assert a == a' + [x] && b == b' + [y];
      forall r ensures r in a' <==> r in b' {
        FrontMembers(a, r);
        FrontMembers(b, r);
      }
      OrderUnique(a', b');
    }
  }

  lemma {:induction false} LastIsLatest(a: seq<Row>, r: Row)
    requires InOrder(a) && r in a
    ensures r == a[|a| - 1] || KeyLess(r.entry, a[|a| - 1].entry)
  {
    var i :| 0 <= i < |a| && a[i] == r;
  }

  lemma {:induction false} FrontMembers(a: seq<Row>, r: Row)
    requires InOrder(a) && a != []
    ensures r in a[..|a| - 1] <==> r in a && r != a[|a| - 1]
  {
    var front, last := a[..|a| - 1], a[|a| - 1];
    assert a == front + [last];
    KeyAsymmetric(last.entry, last.entry);
  }

  // ---- how the rows come about ----

  /** The row continues the anchor, or some row written before it. */
  ghost predicate Continues(c: Crypto, written: seq<Row>, i: nat)
    requires i < |written|
  {
    written[i].prev == c.genesis || exists j :: 0 <= j < i && written[i].prev == written[j].hash
  }

  predicate SealedRow(c: Crypto, r: Row) {
    r.hash == c.seal(r.prev, c.sealed(r.entry))
  }

  ghost predicate Grown(c: Crypto, written: seq<Row>) {
    && (forall x :: x in written ==> SealedRow(c, x))
    && (forall i {:trigger Continues(c, written, i)} :: 0 <= i < |written| ==> Continues(c, written, i))
  }

  predicate FollowsOn(c: Crypto, written: seq<Row>, i: nat)
    requires i < |written|
  {
    written[i].prev == if i == 0 then c.genesis else written[i - 1].hash
  }

  ghost predicate Consecutive(c: Crypto, written: seq<Row>) {
    forall i {:trigger FollowsOn(c, written, i)} :: 0 <= i < |written| ==> FollowsOn(c, written, i)
  }

  /** For the rows at hand: seals tell entries apart, never give the anchor, and tell a changed payload. */
  ghost predicate Tells(c: Crypto, written: seq<Row>) {
    && (forall x, y {:trigger Twins(x, y)} :: x in written && y in written ==> Twins(x, y))
    && (forall x :: x in written ==> x.hash != c.genesis)
    && (forall x {:trigger TellsPayload(c, x)} :: x in written ==> TellsPayload(c, x))
  }

  predicate Twins(x: Row, y: Row) {
    x.hash == y.hash ==> x.entry.id == y.entry.id
  }

  ghost predicate TellsPayload(c: Crypto, x: Row) {
    c.seal(x.prev, c.reread(x.entry)) == c.seal(x.prev, c.sealed(x.entry)) ==> c.reread(x.entry) == c.sealed(x.entry)
  }

  ghost predicate Faithful(c: Crypto, written: seq<Row>) {
    forall x :: x in written ==> c.reread(x.entry) == c.sealed(x.entry)
  }

  ghost predicate Agree(s: seq<Row>, t: seq<Row>, k: nat) {
    k <= |s| && k <= |t| && forall i :: 0 <= i < k ==> s[i] == t[i]
  }

  lemma {:induction false} NotBefore(s: seq<Row>, written: seq<Row>, k: nat, q: nat)
    requires DistinctIds(written) && k < |written| && Agree(s, written, k)
    requires q < |s| && s[q] == written[k]
    ensures q >= k
  {
  }

  lemma {:induction false} NotAfter(c: Crypto, s: seq<Row>, written: seq<Row>, k: nat, q: nat)
    requires InOrder(s) && SameRows(s, written) && DistinctIds(written) && Tells(c, written)
    requires k < |written| && Agree(s, written, k) && Continues(c, written, k)
    requires q < |s| && s[q] == written[k] && HoldsAt(c, s, q)
    ensures q <= k
  {
    if q > 0 {
      assert s[q - 1] in s && s[q - 1] in written;
      assert written[k].prev != c.genesis;
      var j :| 0 <= j < k && written[k].prev == written[j].hash;
      assert written[j] in written && Twins(s[q - 1], written[j]);
      SameIdSameRow(s, written, q - 1, j);
    }
  }

  /** A chained order can only be the order of writing: the row written next is the next one in the order. */
  lemma {:induction false} NextIsNext(c: Crypto, s: seq<Row>, written: seq<Row>, k: nat)
    requires Chained(c, s) && InOrder(s) && SameRows(s, written) && DistinctIds(written) && Grown(c, written) && Tells(c, written)
    requires k < |written| && Agree(s, written, k)
    ensures k < |s| && s[k] == written[k]
  {
    assert written[k] in s;
    var q :| 0 <= q < |s| && s[q] == written[k];
    assert HoldsAt(c, s, q) by { ChainedAt(c, s); }
    NotBefore(s, written, k, q);
    NotAfter(c, s, written, k, q);
  }

  ghost predicate CarriesOn(s: seq<Row>, t: seq<Row>, k: nat) {
    Agree(s, t, k) && k < |t| ==> k < |s| && s[k] == t[k]
  }

  lemma {:induction false} AgreeAll(s: seq<Row>, t: seq<Row>, k: nat)
    requires k <= |t| && forall i: nat :: CarriesOn(s, t, i)
    ensures Agree(s, t, k)
  {
    if k > 0 {
      AgreeAll(s, t, k - 1);
      assert CarriesOn(s, t, k - 1);
    }
  }

  lemma {:induction false} SameLength(s: seq<Row>, written: seq<Row>)
    requires InOrder(s) && SameRows(s, written) && Agree(s, written, |written|)
    ensures s == written
  {
    if s != [] {
      var p := |s| - 1;
      assert s[p] in written;
      var i :| 0 <= i < |written| && written[i] == s[p];
      KeyAsymmetric(s[p].entry, s[p].entry);
      assert i == p;
    }
  }

  lemma {:induction false} SameIdSameRow(s: seq<Row>, written: seq<Row>, p: nat, j: nat)
    requires InOrder(s) && SameRows(s, written) && DistinctIds(written) && p < |s| && j < |s| && j < |written| && s[j] == written[j]
    requires s[p].entry.id == written[j].entry.id
    ensures p == j
  {
    assert s[p] in written;
    var m :| 0 <= m < |written| && written[m] == s[p];
    assert m == j;
    KeyAsymmetric(s[j].entry, s[j].entry);
  }

  /** The rows in their order are chained if and only if they were written in that order and read back as sealed. */
  lemma {:induction false} ChainedIff(c: Crypto, s: seq<Row>, written: seq<Row>)
    requires InOrder(s) && SameRows(s, written) && DistinctIds(written) && Grown(c, written) && Tells(c, written)
    requires (forall r :: r in written ==> Signed(r)) && (InOrder(written) ==> Consecutive(c, written))
    ensures Chained(c, s) <==> InOrder(written) && Faithful(c, written)
  {
    ChainedAt(c, s);
    if Chained(c, s) {
      forall k: nat ensures CarriesOn(s, written, k) {
        if Agree(s, written, k) && k < |written| { NextIsNext(c, s, written, k); }
      }
      AgreeAll(s, written, |written|);
      SameLength(s, written);
      forall x | x in written ensures c.reread(x.entry) == c.sealed(x.entry) {
        var i :| 0 <= i < |s| && s[i] == x;
        assert HoldsAt(c, s, i) && SealedRow(c, x) && TellsPayload(c, x);
      }
    } else if InOrder(written) && Faithful(c, written) {
      OrderUnique(s, written);
      forall i | 0 <= i < |s| ensures HoldsAt(c, s, i) {
        assert s[i] == written[i] && written[i] in written && FollowsOn(c, written, i);
        assert SealedRow(c, written[i]) && c.reread(s[i].entry) == c.sealed(s[i].entry);
      }
    }
  }

  /** The rows a table must have for its chain to verify: unsigned ones sort first, signed ones sort in the order they were
      written, and each payload reads back as it was sealed. */
  ghost predicate Verifiable(c: Crypto, rows: seq<Row>, ordered: seq<Row>) {
    UnsignedFirst(ordered) && InOrder(SignedOf(rows)) && Faithful(c, SignedOf(rows))
  }

  lemma {:induction false} VerifyIff(c: Crypto, rows: seq<Row>, ordered: seq<Row>)
    requires TwoKinds(rows) && DistinctIds(rows) && InOrder(ordered) && SameRows(ordered, rows)
    requires Grown(c, SignedOf(rows)) && Tells(c, SignedOf(rows)) && (InOrder(SignedOf(rows)) ==> Consecutive(c, SignedOf(rows)))
    ensures Accepts(c, ordered) <==> Verifiable(c, rows, ordered)
  {
    forall i | 0 <= i < |ordered| ensures Signed(ordered[i]) || Unsigned(ordered[i]) { assert ordered[i] in rows; }
    AcceptsIff(c, ordered);
    SignedInOrder(ordered);
    SignedDistinct(rows);
    forall r ensures r in SignedOf(ordered) <==> r in SignedOf(rows) {
      SignedMembers(ordered, r);
      SignedMembers(rows, r);
    }
    forall r | r in SignedOf(rows) ensures Signed(r) { SignedMembers(rows, r); }
    ChainedIff(c, SignedOf(ordered), SignedOf(rows));
  }

  /** Two entries recorded one behind the other, stamped alike, the second id sorting first: verification reads them the
      other way round and refuses them. */
  lemma {:induction false} EqualStampsFail(c: Crypto, x: Entry, y: Entry)
    requires x.ts == y.ts && StrLess(y.id, x.id) && c.genesis != "" && c.seal(c.genesis, c.sealed(x)) != "" && c.seal(c.genesis, c.sealed(x)) != c.genesis
    ensures var first := SealedBehind(c, c.genesis, x);
            var second := SealedBehind(c, first.hash, y);
            InOrder([second, first]) && SameRows([second, first], [first, second]) && !Accepts(c, [second, first])
  {
    var first := SealedBehind(c, c.genesis, x);
    var second := SealedBehind(c, first.hash, y);
    assert !RowOk(c, [second, first], 0);
  }

  // ---- the store ----

  ghost predicate Usable(c: Crypto) {
    c.genesis != "" && forall p, x :: c.seal(p, x) != ""
  }

  ghost predicate Taken(rows: seq<Row>, id: string) {
    exists j :: 0 <= j < |rows| && rows[j].entry.id == id
  }

  ghost predicate Known(written: seq<Row>, hash: string) {
    exists j :: 0 <= j < |written| && written[j].hash == hash
  }

  /** The signed rows in the order they were written. */
  ghost predicate Written(c: Crypto, written: seq<Row>) {
    Grown(c, written) && (InOrder(written) ==> Consecutive(c, written))
  }

  /** The next seal follows a row that was written; the last one, if the rows sort as they were written. */
  ghost predicate Follows(written: seq<Row>, last: string) {
    if written == [] then last == ""
    else Known(written, last) && (InOrder(written) ==> last == written[|written| - 1].hash)
  }

  class Store {
    const c: Crypto
    // In the order of insertion; the code only ever reads the rows by key.
    var rows: seq<Row>
    var last: string
    var chainMode: bool

    ghost predicate Valid() reads this {
      Usable(c) && TwoKinds(rows) && DistinctIds(rows) && Written(c, SignedOf(rows)) && (chainMode ==> Follows(SignedOf(rows), last))
    }

    /** NewStoreWithOptions on an empty database. */
    constructor (c: Crypto, chainMode: bool)
      requires Usable(c)
      ensures Valid() && rows == [] && this.chainMode == chainMode && this.c == c
    {
      this.c, this.chainMode := c, chainMode;
      rows, last := [], "";
    }

    /** INSERT OR IGNORE: is there a row under this id? */
    method IsTaken(id: string) returns (taken: bool)
      ensures taken <==> Taken(rows, id)
    {
      taken := false;
      for i := 0 to |rows|
        invariant taken <==> exists j :: 0 <= j < i && rows[j].entry.id == id
      {
        if rows[i].entry.id == id { taken := true; }
      }
    }

    /** Record: seal the entry behind the last hash; an id that is taken is ignored. */
    method Record(e: Entry) returns (ghost stored: Row)
      requires Valid()
      modifies this`rows, this`last
      ensures Valid()
      ensures Taken(old(rows), e.id) ==> rows == old(rows) && last == old(last)
      ensures !Taken(old(rows), e.id) ==>
        rows == old(rows) + [stored] && (if chainMode then Signed(stored) else stored == Row(e, "", ""))
      ensures !Taken(old(rows), e.id) && chainMode ==> stored == SealedBehind(c, if old(last) == "" then c.genesis else old(last), e)
      ensures !Taken(old(rows), e.id) ==> last == if chainMode then stored.hash else old(last)
    {
      stored := Row(e, "", "");
      var taken := IsTaken(e.id);
      if taken { return; }
      var row := Row(e, "", "");
      if chainMode {
        var prev := if last == "" then c.genesis else last;
        row := SealedBehind(c, prev, e);
        WrittenMore(c, SignedOf(rows), last, row);
        last := row.hash;
      }
      SignedMore(rows, row);
      RowsMore(rows, row);
      rows := rows + [row];
      stored := row;
    }

    /** latestPersistedEntryHash */
    method LatestHash() returns (hash: string)
      requires Valid()
      ensures SignedOf(rows) == [] ==> hash == ""
      ensures SignedOf(rows) != [] ==> Known(SignedOf(rows), hash)
      ensures SignedOf(rows) != [] && InOrder(SignedOf(rows)) ==> hash == SignedOf(rows)[|SignedOf(rows)| - 1].hash
    {
      var best: Option<Row> := None;
      for i := 0 to |rows|
        invariant best.None? <==> SignedOf(rows[..i]) == []
        invariant best.Some? ==> best.value in SignedOf(rows[..i]) && Latest(SignedOf(rows[..i]), best.value)
      {
        SignedOfNext(rows, i);
        ghost var before := SignedOf(rows[..i]);
        if rows[i].hash != "" && (best.None? || KeyLess(best.value.entry, rows[i].entry)) {
          if best.Some? { LatestMoves(before, best.value, rows[i]); } else { KeyAsymmetric(rows[i].entry, rows[i].entry); }
          best := Some(rows[i]);
        }
      }
      assert rows[..|rows|] == rows;
      hash := if best.None? then "" else best.value.hash;
      if best.Some? { LatestIsLast(SignedOf(rows), best.value); }
    }

    /** Opening the same database again, with or without chain mode. */
    method Reopen(chainMode: bool)
      requires Valid()
      modifies this`last, this`chainMode
      ensures Valid() && this.chainMode == chainMode
    {
      var hash := LatestHash();
      this.chainMode := chainMode;
      last := if chainMode then hash else "";
    }

    /** VerifyChain over the rows as the query returns them, by timestamp and id. The answer is yes if and only if the
        unsigned rows sort first, the signed rows sort in the order they were written and their payloads read back
        unchanged, for every history of records and restarts. */
    method Verify(ordered: seq<Row>) returns (valid: bool, checked: nat)
      requires Valid() && InOrder(ordered) && SameRows(ordered, rows) && Tells(c, SignedOf(rows))
      ensures !chainMode ==> valid && checked == 0
      ensures chainMode ==> (valid <==> Verifiable(c, rows, ordered))
      ensures chainMode && valid ==> checked == |SignedOf(rows)|
    {
      if !chainMode { return true, 0; }
      var ok, n, _ := VerifyChain(c, ordered);
      VerifyIff(c, rows, ordered);
      if ok { SignedAlike(rows, ordered); }
      valid, checked := ok, n;
    }
  }

  // ---- facts behind the store ----

  lemma {:induction false} SignedAlike(rows: seq<Row>, ordered: seq<Row>)
    requires InOrder(ordered) && SameRows(ordered, rows) && InOrder(SignedOf(rows))
    ensures SignedOf(ordered) == SignedOf(rows)
  {
    SignedInOrder(ordered);
    forall r ensures r in SignedOf(ordered) <==> r in SignedOf(rows) {
      SignedMembers(ordered, r);
      SignedMembers(rows, r);
    }
    OrderUnique(SignedOf(ordered), SignedOf(rows));
  }

  lemma {:induction false} SignedMore(rows: seq<Row>, r: Row)
    ensures SignedOf(rows + [r]) == if Signed(r) then SignedOf(rows) + [r] else SignedOf(rows)
  {
    assert (rows + [r])[..|rows|] == rows && SignedOf(rows) + [] == SignedOf(rows);
  }

  lemma {:induction false} RowsMore(rows: seq<Row>, r: Row)
    requires TwoKinds(rows) && DistinctIds(rows) && !Taken(rows, r.entry.id) && (Signed(r) || Unsigned(r))
    ensures TwoKinds(rows + [r]) && DistinctIds(rows + [r])
  {
    var rows' := rows + [r];
    forall i, j | 0 <= i < j < |rows'| ensures rows'[i].entry.id != rows'[j].entry.id {
      assert rows'[i] == rows[i];
    }
  }

  lemma {:induction false} GrownMore(c: Crypto, written: seq<Row>, r: Row)
    requires Grown(c, written) && SealedRow(c, r) && (r.prev == c.genesis || Known(written, r.prev))
    ensures Grown(c, written + [r])
  {
    var w' := written + [r];
    forall x | x in w' ensures SealedRow(c, x) { assert x in written || x == r; }
    forall i | 0 <= i < |w'| ensures Continues(c, w', i) {
      if i < |written| {
        assert Continues(c, written, i);
        if written[i].prev != c.genesis {
          var j :| 0 <= j < i && written[i].prev == written[j].hash;
          assert w'[i].prev == w'[j].hash;
        }
      } else if r.prev != c.genesis {
        var j :| 0 <= j < |written| && written[j].hash == r.prev;
        assert w'[i].prev == w'[j].hash;
      }
    }
  }

  lemma {:induction false} InOrderFront(written: seq<Row>, r: Row)
    requires InOrder(written + [r])
    ensures InOrder(written)
  {
    var w' := written + [r];
    forall i, j | 0 <= i < j < |written| ensures KeyLess(written[i].entry, written[j].entry) {
      assert w'[i] == written[i] && w'[j] == written[j];
    }
  }

  lemma {:induction false} WrittenMore(c: Crypto, written: seq<Row>, last: string, r: Row)
    requires Usable(c) && Written(c, written) && Follows(written, last) && SealedRow(c, r)
    requires r.prev == if last == "" then c.genesis else last
    ensures Written(c, written + [r]) && Follows(written + [r], r.hash)
  {
    GrownMore(c, written, r);
    var w' := written + [r];
    assert w'[|written|] == r;
    if InOrder(w') {
      InOrderFront(written, r);
      if written != [] {
        assert written[|written| - 1] in written && last != "";
      }
      forall i | 0 <= i < |w'| ensures FollowsOn(c, w', i) {
        if i < |written| { assert FollowsOn(c, written, i); }
      }
    }
  }

  /** None of the rows sorts after `r`. */
  ghost predicate Latest(written: seq<Row>, r: Row) {
    forall x :: x in written ==> !KeyLess(r.entry, x.entry)
  }

  lemma {:induction false} KeyTransitive(a: Entry, b: Entry, d: Entry)
    requires KeyLess(a, b) && KeyLess(b, d)
    ensures KeyLess(a, d)
  {
    if StrLess(a.ts, b.ts) && StrLess(b.ts, d.ts) { StrLessTransitive(a.ts, b.ts, d.ts); }
    if StrLess(a.id, b.id) && StrLess(b.id, d.id) { StrLessTransitive(a.id, b.id, d.id); }
  }

  lemma {:induction false} LatestMoves(written: seq<Row>, r: Row, next: Row)
    requires Latest(written, r) && KeyLess(r.entry, next.entry)
    ensures Latest(written + [next], next)
  {
    forall x | x in written + [next] ensures !KeyLess(next.entry, x.entry) {
      if KeyLess(next.entry, x.entry) {
        KeyAsymmetric(next.entry, x.entry);
        KeyTransitive(r.entry, next.entry, x.entry);
      }
    }
  }

  lemma {:induction false} LatestIsLast(written: seq<Row>, r: Row)
    requires r in written && Latest(written, r)
    ensures Known(written, r.hash) && (InOrder(written) ==> r == written[|written| - 1])
  {
    var i :| 0 <= i < |written| && written[i] == r;
    assert written[|written| - 1] in written;
  }
}
