/** Resume tokens of the command stream: `<request id>:<sequence number>`. */
module StreamToken {
  import opened Text

  /** EncodeResumeToken */
  function Encode(request: string, seq_: int): (token: string)
    ensures Trim(request) == "" ==> token == ""
  {
    var id := Trim(request);
    if id == "" then ""
    else id + ":" + FormatNat(if seq_ < 0 then 0 else seq_)
  }

  /** DecodeResumeToken: the empty token names no request and position 0. */
  function Decode(token: string): (r: Result<(string, nat)>)
  {
    var t := Trim(token);
    if t == "" then Ok(("", 0))
    else
      var idx := LastIndex(t, ':');
      if idx <= 0 || idx >= |t| - 1 then Err("invalid resume token")
      else
        var id := Trim(t[..idx]);
        if id == "" then Err("invalid resume token")
        else
          match ParseInt64(Trim(t[idx + 1..]))
          case None => Err("invalid resume token")
          case Some(n) => if n < 0 then Err("invalid resume token") else Ok((id, n))
  }

  /** Every token decodes to the trimmed request and the clamped position it was made from, whatever
      characters the request id holds, ':' included. */
  lemma {:induction false} RoundTrip(request: string, seq_: int)
    requires seq_ <= MAX_INT64
    ensures Decode(Encode(request, seq_)) ==
            Ok(if Trim(request) == "" then ("", 0) else (Trim(request), if seq_ < 0 then 0 else seq_))
  {
    var id := Trim(request);
    if id != "" {
      var n := if seq_ < 0 then 0 else seq_;
      TokenShape(id, FormatNat(n));
      DigitsAreTrimmed(FormatNat(n));
      ParseFormatted(n);
    }
  }

  lemma {:induction false} TokenShape(id: string, digits: string)
    requires id != "" && Trimmed(id) && digits != "" && AllDigits(digits)
    ensures var t := id + ":" + digits;
            Trimmed(t) && LastIndex(t, ':') == |id| && t[..|id|] == id && t[|id| + 1..] == digits
  {
    DigitsAreTrimmed(digits);
    LastIndexAt(id, ':', digits);
    var t := id + ":" + digits;
    assert t[0] == id[0] && t[|t| - 1] == digits[|digits| - 1];
  }

  /** Hence two positions, or two requests, never share a token. */
  lemma {:induction false} Injective(request: string, seq_: nat, request': string, seq': nat)
    requires seq_ <= MAX_INT64 && seq' <= MAX_INT64
    requires Trim(request) != "" && Trim(request') != ""
    requires Encode(request, seq_) == Encode(request', seq')
    ensures Trim(request) == Trim(request') && seq_ == seq'
  {
    RoundTrip(request, seq_);
    RoundTrip(request', seq');
  }

  /** The text has its last colon at `i`; what comes before it, trimmed, is the request, and what comes after it is a number
      of 64 bits. */
  predicate SplitAt(t: string, i: nat, id: string, n: int) {
    && 0 < i < |t| && t[i] == ':' && ':' !in t[i + 1..]
    && id == Trim(t[..i]) != "" && ParseInt64(Trim(t[i + 1..])) == Some(n)
  }

  lemma {:induction false} DecodedSplits(token: string, id: string, n: nat)
    requires Trim(token) != "" && Decode(token) == Ok((id, n))
    ensures var i := LastIndex(Trim(token), ':'); i >= 0 && SplitAt(Trim(token), i, id, n)
  {}

  lemma {:induction false} SplitDecodes(token: string, i: nat, id: string, n: nat)
    requires Trim(token) != "" && SplitAt(Trim(token), i, id, n)
    ensures Decode(token) == Ok((id, n))
  {
    OnlyLast(Trim(token), i);
    NumberIsText(Trim(token), i);
  }

  lemma {:induction false} NumberIsText(t: string, i: nat)
    requires i < |t| && ParseInt64(Trim(t[i + 1..])).Some?
    ensures i < |t| - 1
  {
    var rest := t[i + 1..];
    assert Trim("") == "" && ParseInt64("") == None;
    assert rest != "";
  }

  /** A token that is not blank is accepted exactly if it splits so, with a number that is not negative. */
  lemma {:induction false} DecodeIff(token: string, id: string, n: nat)
    requires Trim(token) != ""
    ensures Decode(token) == Ok((id, n)) <==> exists i: nat :: SplitAt(Trim(token), i, id, n)
  {
    if Decode(token) == Ok((id, n)) { DecodedSplits(token, id, n); }
    if i: nat :| SplitAt(Trim(token), i, id, n) { SplitDecodes(token, i, id, n); }
  }

  lemma {:induction false} OnlyLast(t: string, i: nat)
    requires i < |t| && t[i] == ':' && ':' !in t[i + 1..]
    ensures LastIndex(t, ':') == i
  {
    forall k | i < k < |t| ensures t[k] != ':' { assert t[i + 1..][k - i - 1] == t[k]; }
  }
}
