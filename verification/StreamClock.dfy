/** Event stamps as the code stores and compares them: text in the layout time.RFC3339Nano, whose fraction has its
    trailing zeros cut off. Within one second the text order is not always the order of time. */
module StreamClock {
  import opened Text
  import opened StreamStore
  import opened StreamReplay
  import Ranking

  /** The digits of a fraction without its trailing zeros. */
  function Strip(digits: string): string {
    if digits == "" then ""
    else
      var rest := Strip(digits[1..]);
      if rest == "" && digits[0] == '0' then "" else [digits[0]] + rest
  }

  /** The part of a stamp behind its whole seconds, for a fraction given by its digits. */
  function Tail(digits: string): string {
    (if Strip(digits) == "" then "" else "." + Strip(digits)) + "Z"
  }

  lemma {:induction false} ConsPrefix(c: char, u: string, v: string)
    ensures [c] + u <= [c] + v <==> u <= v
  {
    if [c] + u <= [c] + v {
      assert u == ([c] + u)[1..] && v == ([c] + v)[1..];
      assert forall i :: 0 <= i < |u| ==> u[i] == ([c] + u)[i + 1];
    }
  }

  lemma {:induction false} StripOrder(a: string, b: string)
    requires AllDigits(a) && AllDigits(b) && |a| == |b| && StrLess(a, b)
    ensures StrLess(Strip(a) + "Z", Strip(b) + "Z") <==> !(Strip(a) <= Strip(b))
    ensures Strip(b) != ""
  {
    var a', b' := a[1..], b[1..];
    assert IsDigit(a[0]) && IsDigit(b[0]);
    if a[0] == b[0] { StripOrder(a', b'); }
    assert Strip(b) == [b[0]] + Strip(b') && (Strip(b) + "Z")[1..] == Strip(b') + "Z";
    if Strip(a) == "" {
      assert Strip(a) + "Z" == "Z";
      assert (Strip(b) + "Z")[0] == b[0];
    } else {
      assert Strip(a) == [a[0]] + Strip(a') && (Strip(a) + "Z")[1..] == Strip(a') + "Z";
      if a[0] == b[0] { ConsPrefix(a[0], Strip(a'), Strip(b')); }
    }
  }

  lemma {:induction false} SamePrefix(p: string, u: string, v: string)
    ensures StrLess(p + u, p + v) <==> StrLess(u, v)
  {
    if p == "" {
      assert p + u == u && p + v == v;
    } else {
      assert (p + u)[1..] == p[1..] + u && (p + v)[1..] == p[1..] + v;
      SamePrefix(p[1..], u, v);
    }
  }

  /** Two stamps of the same second, the first one earlier: the text order agrees if and only if the digits left of the
      earlier fraction are not the beginning of the later one's. */
  lemma {:induction false} StampOrder(second: string, a: string, b: string)
    requires AllDigits(a) && AllDigits(b) && |a| == |b| && StrLess(a, b)
    ensures StrLess(second + Tail(a), second + Tail(b)) <==> !(Strip(a) <= Strip(b))
  {
    SamePrefix(second, Tail(a), Tail(b));
    StripOrder(a, b);
    if Strip(a) != "" {
      assert Tail(a) == "." + (Strip(a) + "Z") && Tail(b) == "." + (Strip(b) + "Z");
      SamePrefix(".", Strip(a) + "Z", Strip(b) + "Z");
    }
  }

  /** Half a second comes after 51 hundredths. */
  lemma {:induction false} StampOrderFails(second: string)
    ensures StrLess("500000000", "510000000") && !StrLess(second + Tail("500000000"), second + Tail("510000000"))
  {
    var a, b := "500000000", "510000000";
    ZerosStrip(a[1..]);
    assert Strip(a) == ['5'] + Strip(a[1..]);
    var b' := b[1..];
    ZerosStrip(b'[1..]);
    assert Strip(b') == ['1'] + Strip(b'[1..]);
    assert Strip(b) == ['5'] + Strip(b');
    assert StrLess(a[1..], b');
    StampOrder(second, a, b);
  }

  lemma {:induction false} ZerosStrip(z: string)
    requires forall i :: 0 <= i < |z| ==> z[i] == '0'
    ensures Strip(z) == ""
  {
    if z != "" { ZerosStrip(z[1..]); }
  }

  // ---- what the total delete needs of the stamps ----

  ghost predicate InStampOrder(run: Run) {
    forall i, j :: 0 <= i <= j < |run| ==> run[i].createdAt <= run[j].createdAt
  }

  /** The rows up to and including `y` in the order of the delete. */
  ghost function UpTo(t: Table, y: Event): set<Event> {
    set e | e in Rows(t) && (e == y || Earlier(e, y))
  }

  lemma {:induction false} UpToIsFirst(t: Table, y: Event)
    requires Keyed(t) && y in Rows(t)
    ensures Ranking.IsFirst(Earlier, Rows(t), UpTo(t, y), |UpTo(t, y)|)
  {
    EarlierStrictTotal(t);
    forall e, f | e in UpTo(t, y) && f in Rows(t) - UpTo(t, y) ensures Earlier(e, f) {
      assert Earlier(y, f);
    }
  }

  /** A cap under which the total delete removes `y` and nothing after it. */
  lemma {:induction false} DeleteUpTo(t: Table, y: Event) returns (cap: nat)
    requires Keyed(t) && y in Rows(t)
    ensures PruneTotal(t, cap) == Retain(t, Outside(UpTo(t, y)))
  {
    var gone := UpTo(t, y);
    Ranking.SubsetSize(gone, Rows(t));
    cap := |Rows(t)| - |gone|;
    UpToIsFirst(t, y);
    assert y in gone && |gone| > 0;
    assert IsExcess(t, gone, cap);
    EarlierStrictTotal(t);
    forall other | IsExcess(t, other, cap) ensures other == gone {
      Ranking.FirstUnique(Earlier, Rows(t), other, gone, |gone|);
    }
  }

  lemma {:induction false} HoleLeft(t: Table, r: string, i: nat, j: nat)
    requires Keyed(t) && r in t && i <= j < |t[r]| && t[r][i].createdAt > t[r][j].createdAt
    ensures exists cap: nat :: !DropsOldest(t, PruneTotal(t, cap))
  {
    var x, y := t[r][i], t[r][j];
    assert y in Rows(t) && x in Rows(t) && x !in UpTo(t, y) && y in UpTo(t, y);
    var cap := DeleteUpTo(t, y);
    var keep := Outside(UpTo(t, y));
    var run' := Filter(t[r], keep);
    FilterMembers(t[r], keep, x);
    FilterMembers(t[r], keep, y);
    assert PruneTotal(t, cap)[r] == run';
    NotASuffix(t[r], run', i, j);
  }

  lemma {:induction false} NotASuffix(run: Run, run': Run, i: nat, j: nat)
    requires i <= j < |run| && run[i] in run' && forall k :: 0 <= k < |run| ==> run[k].num == run[0].num + k
    ensures IsSuffix(run', run) ==> run[j] in run'
  {
    if IsSuffix(run', run) {
      SuffixSlice(run', run);
      SuffixKeepsLater(run, |run| - |run'|, i, j);
    }
  }

  lemma {:induction false} SuffixKeepsLater(run: Run, d: nat, i: nat, j: nat)
    requires d <= |run| && i <= j < |run| && run[i] in run[d..] && forall k :: 0 <= k < |run| ==> run[k].num == run[0].num + k
    ensures run[j] in run[d..]
  {
    var k :| 0 <= k < |run[d..]| && run[d..][k] == run[i];
    assert run[d + k].num == run[i].num;
    assert run[d..][j - d] == run[j];
  }

  lemma {:induction false} SortedIsValid(t: Table)
    requires Keyed(t) && forall r :: r in t ==> InStampOrder(t[r])
    ensures Valid(t)
  {
    forall r | r in t ensures Contiguous(t[r], r) { SortedIsContiguous(t[r], r); }
  }

  lemma {:induction false} SortedIsContiguous(run: Run, request: string)
    requires InStampOrder(run)
    requires forall i :: 0 <= i < |run| ==> run[i].request == request && run[i].num == run[0].num + i
    ensures Contiguous(run, request)
  {
    if run != [] { SortedIsContiguous(run[1..], request); }
  }

  /** The total delete takes the oldest rows of every request, for every cap, if and only if the stamps of each request
      sort in the order of its numbers. */
  lemma {:induction false} TotalDeleteIffInOrder(t: Table)
    requires Keyed(t)
    ensures (forall cap: nat :: DropsOldest(t, PruneTotal(t, cap))) <==> (forall r :: r in t ==> InStampOrder(t[r]))
  {
    if forall r :: r in t ==> InStampOrder(t[r]) {
      SortedIsValid(t);
      forall cap: nat ensures DropsOldest(t, PruneTotal(t, cap)) { PruneTotalSuffix(t, cap); }
    } else {
      var r :| r in t && !InStampOrder(t[r]);
      var i, j :| 0 <= i <= j < |t[r]| && t[r][i].createdAt > t[r][j].createdAt;
      HoleLeft(t, r, i, j);
    }
  }

  /** With two stamps out of order and room for one row, number 2 is deleted and number 1 stays: the next page tells
      number 1, reports nothing missed and nothing more, and the consumer never hears of number 2. */
  lemma {:induction false} SilentLossWhenOutOfOrder(request: string, body: Body, at: int)
    ensures var first, second := Event(request, 1, body, at), Event(request, 2, body, at - 1);
            var t := map[request := [first, second]];
            && PruneTotal(t, 1)[request] == [first]
            && var page := ReplayFrom(PruneTotal(t, 1)[request], 0, 0);
               PageItems(page) == [Got(first)] && page.next == 1 && !page.hasMore
  {
    var first, second := Event(request, 1, body, at), Event(request, 2, body, at - 1);
    var t := map[request := [first, second]];
    forall e ensures e in Rows(t) <==> e == first || e == second {
      if e == first { assert t[request][0] == e; }
      if e == second { assert t[request][1] == e; }
    }
    assert Rows(t) == {first, second};
    assert UpTo(t, second) == {second};
    assert Keyed(t);
    UpToIsFirst(t, second);
    EarlierStrictTotal(t);
    assert IsExcess(t, {second}, 1);
    forall other | IsExcess(t, other, 1) ensures other == {second} {
      Ranking.FirstUnique(Earlier, Rows(t), other, {second}, 1);
    }
    assert PruneTotal(t, 1) == Retain(t, Outside({second}));
    assert t[request][1..] == [second] && [second][1..] == [];
    assert Filter([second], Outside({second})) == [];
    assert Filter(t[request], Outside({second})) == [first];
    assert [first][1..] == [] && Filter([first], After(0)) == [first];
    assert Gots([first]) == [Got(first)] + Gots([]);
  }
}
