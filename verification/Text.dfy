/** The parts of Go's `strings`, `strconv` and `unicode` packages that the control plane relies on. */
module Text {

  datatype Option<+T> = None | Some(value: T)

  datatype Result<+T> = Ok(value: T) | Err(error: string)

  /** unicode.IsSpace */
  predicate IsSpace(c: char) {
    var n := c as int;
    || 0x09 <= n <= 0x0D || n == 0x20 || n == 0x85 || n == 0xA0 || n == 0x1680
    || 0x2000 <= n <= 0x200A || n == 0x2028 || n == 0x2029 || n == 0x202F || n == 0x205F || n == 0x3000
  }

  /** Neither end of the text is white space. */
  predicate Trimmed(s: string) {
    s == "" || (!IsSpace(s[0]) && !IsSpace(s[|s| - 1]))
  }

  predicate AllSpace(s: string) {
    forall i :: 0 <= i < |s| ==> IsSpace(s[i])
  }

  /** strings.TrimSpace */
  function Trim(s: string): (r: string)
    ensures Trimmed(r)
    ensures Trimmed(s) ==> r == s
    ensures r == "" <==> AllSpace(s)
  {
    if s == "" then s
    else if IsSpace(s[0]) then
      assert AllSpace(s) <==> AllSpace(s[1..]) by { assert forall i :: 0 < i < |s| ==> s[i] == s[1..][i - 1]; }
      Trim(s[1..])
    else if IsSpace(s[|s| - 1]) then
      Trim(s[..|s| - 1])
    else s
  }

  /** `inner` is `s` without some white space at either end. */
  predicate InnerAt(s: string, inner: string, i: nat) {
    && i + |inner| <= |s|
    && s[i..i + |inner|] == inner
    && AllSpace(s[..i]) && AllSpace(s[i + |inner|..])
  }

  /** Trimming only ever removes white space, and only from the two ends. */
  lemma {:induction false} TrimIsInner(s: string) returns (i: nat)
    ensures InnerAt(s, Trim(s), i)
  {
    if s == "" {
      i := 0;
    } else if IsSpace(s[0]) {
      var k := TrimIsInner(s[1..]);
      i := k + 1;
      InnerOfTail(s, Trim(s), k);
    } else if IsSpace(s[|s| - 1]) {
      i := TrimIsInner(s[..|s| - 1]);
      InnerOfFront(s, Trim(s), i);
    } else {
      i := 0;
    }
  }

  lemma {:induction false} InnerOfTail(s: string, inner: string, k: nat)
    requires s != "" && IsSpace(s[0]) && InnerAt(s[1..], inner, k)
    ensures InnerAt(s, inner, k + 1)
  {
    assert s[..k + 1] == [s[0]] + s[1..][..k];
    assert s[k + 1 + |inner|..] == s[1..][k + |inner|..];
    assert s[k + 1..k + 1 + |inner|] == s[1..][k..k + |inner|];
  }

  lemma {:induction false} InnerOfFront(s: string, inner: string, k: nat)
    requires s != "" && IsSpace(s[|s| - 1]) && InnerAt(s[..|s| - 1], inner, k)
    ensures InnerAt(s, inner, k)
  {
    var front := s[..|s| - 1];
    assert s[..k] == front[..k];
    assert s[k..k + |inner|] == front[k..k + |inner|];
    assert s[k + |inner|..] == front[k + |inner|..] + [s[|s| - 1]];
  }

  /** strings.ToLower on the ASCII letters; every other character is kept. */
  function Lower(s: string): (r: string)
    ensures |r| == |s|
  {
    seq(|s|, i requires 0 <= i < |s| => if 'A' <= s[i] <= 'Z' then (s[i] as int + 32) as char else s[i])
  }

  predicate IsDigit(c: char) { '0' <= c <= '9' }

  predicate AllDigits(s: string) {
    forall i :: 0 <= i < |s| ==> IsDigit(s[i])
  }

  /** strconv.FormatInt(n, 10) for a non-negative n. */
  function FormatNat(n: nat): (s: string)
    ensures s != "" && AllDigits(s)
  {
    var digit := [(n % 10 + '0' as int) as char];
    if n < 10 then digit else FormatNat(n / 10) + digit
  }

  function DigitsValue(s: string): nat
    requires AllDigits(s)
  {
    if s == "" then 0 else DigitsValue(s[..|s| - 1]) * 10 + (s[|s| - 1] as int - '0' as int)
  }

  lemma {:induction false} FormatNatRoundTrip(n: nat)
    ensures DigitsValue(FormatNat(n)) == n
  {
    if n >= 10 {
      FormatNatRoundTrip(n / 10);
      assert FormatNat(n)[..|FormatNat(n)| - 1] == FormatNat(n / 10);
    } else {
      assert FormatNat(n)[..0] == "";
    }
  }

  const MAX_INT64: int := 0x7FFF_FFFF_FFFF_FFFF

  /** strconv.ParseInt(s, 10, 64): an optional sign, then at least one digit, within the range of int64. */
  function ParseInt64(s: string): (r: Option<int>)
    ensures r.Some? ==> -MAX_INT64 - 1 <= r.value <= MAX_INT64
  {
    if s == "" then None
    else
      var negative := s[0] == '-';
      var digits := if s[0] == '-' || s[0] == '+' then s[1..] else s;
      if digits == "" || !AllDigits(digits) then None
      else
        var n: int := DigitsValue(digits);
        if negative then (if n <= MAX_INT64 + 1 then Some(-n) else None)
        else (if n <= MAX_INT64 then Some(n) else None)
  }

  lemma {:induction false} ParseFormatted(n: nat)
    requires n <= MAX_INT64
    ensures ParseInt64(FormatNat(n)) == Some(n)
  {
    FormatNatRoundTrip(n);
    assert IsDigit(FormatNat(n)[0]);
  }

  /** strings.LastIndex for a single character: -1 when it does not occur. */
  function LastIndex(s: string, c: char): (i: int)
    ensures -1 <= i < |s|
    ensures i >= 0 ==> s[i] == c
    ensures forall k :: i < k < |s| ==> s[k] != c
  {
    if s == "" then -1
    else if s[|s| - 1] == c then |s| - 1
    else LastIndex(s[..|s| - 1], c)
  }

  lemma {:induction false} LastIndexAt(a: string, c: char, b: string)
    requires c !in b
    ensures LastIndex(a + [c] + b, c) == |a|
  {
    var s := a + [c] + b;
    assert s[|a|] == c && forall k :: |a| < k < |s| ==> s[k] == b[k - |a| - 1];
  }

  lemma {:induction false} DigitsAreTrimmed(s: string)
    requires AllDigits(s)
    ensures Trimmed(s)
  {
    if s != "" { assert IsDigit(s[0]) && IsDigit(s[|s| - 1]); }
  }

  /** String order of the BINARY collation: code point by code point, a proper prefix first. */
  predicate StrLess(a: string, b: string) {
    if b == "" then false
    else if a == "" then true
    else a[0] < b[0] || (a[0] == b[0] && StrLess(a[1..], b[1..]))
  }

  lemma {:induction false} StrLessTotal(a: string, b: string)
    ensures !(StrLess(a, b) && StrLess(b, a))
    ensures StrLess(a, b) || StrLess(b, a) || a == b
  {
    if a != "" && b != "" {
      StrLessTotal(a[1..], b[1..]);
      assert a == [a[0]] + a[1..] && b == [b[0]] + b[1..];
    }
  }

  lemma {:induction false} StrLessTransitive(a: string, b: string, c: string)
    requires StrLess(a, b) && StrLess(b, c)
    ensures StrLess(a, c)
  {
    if a != "" && a[0] == b[0] == c[0] { StrLessTransitive(a[1..], b[1..], c[1..]); }
  }
}
