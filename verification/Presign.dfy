/** Presigned artifact tokens: minting, parsing and validation. */
module Presign {
  import opened Text
  import opened ArtifactPath
  import B = Base64Url

  /** signedClaims; times are whole seconds. */
  datatype Claims = Claims(run: string, session: string, scope: string, path: string, op: string, issued: int, expires: int)

  /** JSON encoding of claims, its inverse where there is one, and the keyed hash. */
  datatype Codec = Codec(marshal: Claims -> seq<B.Byte>, unmarshal: seq<B.Byte> -> Option<Claims>, mac: seq<B.Byte> -> seq<B.Byte>)

  ghost predicate Faithful(k: Codec) {
    forall c :: k.unmarshal(k.marshal(c)) == Some(c)
  }

  const SECOND := 1_000_000_000

  const UPLOAD := "upload"
  const DOWNLOAD := "download"

  /** time.Unix */
  function Seconds(nanos: int): int {
    nanos / SECOND
  }

  /** normalizeOperation */
  function NormalOp(op: string): Result<string> {
    var o := Trim(op);
    if o == UPLOAD || o == DOWNLOAD then Ok(o)
    else if o == "" then Err("operation is required")
    else Err("operation is invalid")
  }

  /** signToken */
  function Sign(k: Codec, c: Claims): string {
    B.Encode(k.marshal(c)) + "." + B.Encode(k.mac(k.marshal(c)))
  }

  predicate Sound(c: Claims) {
    && Trim(c.run) != "" && Trim(c.path) != "" && Trim(c.scope) != ""
    && NormalOp(c.op).Ok? && c.expires > 0 && c.issued > 0 && c.expires >= c.issued
  }

  /** parseToken */
  function Parse(k: Codec, token: string): Result<Claims> {
    var parts := Split(token, '.');
    if |parts| != 2 then Err("presigned token is invalid")
    else
      var payload, sig := B.Decode(parts[0]), B.Decode(parts[1]);
      if payload.None? || sig.None? || sig.value != k.mac(payload.value) then Err("presigned token is invalid")
      else
        match k.unmarshal(payload.value)
        case None => Err("presigned token is invalid")
        case Some(c) => if Sound(c) then Ok(c) else Err("presigned token is invalid")
  }

  datatype Request = Request(run: string, session: string, scope: string, path: string, op: string, ttl: int)

  function TtlOf(r: Request, defaultTtl: int): int {
    if r.ttl <= 0 then defaultTtl else r.ttl
  }

  function ScopeOf(r: Request): string
    requires Normal(r.path, false).Ok? && Normal(r.scope, true).Ok?
  {
    if Normal(r.scope, true).value == "" then Normal(r.path, false).value else Normal(r.scope, true).value
  }

  /** The first thing wrong with a request. */
  function Refusal(r: Request): (e: Option<string>)
    ensures e.None? ==> Normal(r.path, false).Ok? && Normal(r.scope, true).Ok? && NormalOp(r.op).Ok?
  {
    if Trim(r.run) == "" then Some("run_id is required")
    else if Trim(r.session) == "" then Some("session_id is required")
    else if NormalOp(r.op).Err? then Some(NormalOp(r.op).error)
    else if Normal(r.path, false).Err? then Some(Normal(r.path, false).error)
    else if Normal(r.scope, true).Err? then Some(Normal(r.scope, true).error)
    else if !WithinScope(Normal(r.path, false).value, ScopeOf(r)) then Some("presigned scope rejected")
    else None
  }

  function ClaimsOf(r: Request, issued: int, expires: int): Claims
    requires Refusal(r).None?
  {
    Claims(Trim(r.run), Trim(r.session), ScopeOf(r), Normal(r.path, false).value, NormalOp(r.op).value, issued, expires)
  }

  /** Presign at time `now`, in nanoseconds. */
  function Mint(k: Codec, defaultTtl: int, r: Request, now: int): Result<(string, Claims)> {
    match Refusal(r)
    case Some(e) => Err(e)
    case None =>
      var c := ClaimsOf(r, Seconds(now), Seconds(now + TtlOf(r, defaultTtl)));
      Ok((Sign(k, c), c))
  }

  /** Validate at time `now`. */
  function Validate(k: Codec, token: string, run: string, path: string, op: string, now: int): Result<Claims> {
    if Trim(token) == "" then Err("presigned token is required")
    else if Trim(run) == "" then Err("run_id is required")
    else if NormalOp(op).Err? then Err(NormalOp(op).error)
    else if Normal(path, false).Err? then Err(Normal(path, false).error)
    else
      match Parse(k, Trim(token))
      case Err(e) => Err(e)
      case Ok(w) =>
        var c := w.(run := Trim(w.run), session := Trim(w.session), scope := Trim(w.scope), path := Trim(w.path), op := Trim(w.op));
        var wanted := Normal(path, false).value;
        if now > c.expires * SECOND then Err("presigned token is expired")
        else if c.run != Trim(run) || c.op != NormalOp(op).value || !WithinScope(wanted, c.scope) || (c.path != "" && wanted != c.path)
        then Err("presigned scope rejected")
        else Ok(c)
  }

  // ---- what is minted ----

  /** The scope of a request holds its path: it names none, or the path itself, or a directory above it. */
  predicate Holds(scope: string, path: string) {
    scope == "" || scope == path || scope + "/" <= path
  }

  lemma {:induction false} WithinIff(r: Request)
    requires Normal(r.path, false).Ok? && Normal(r.scope, true).Ok?
    ensures WithinScope(Normal(r.path, false).value, ScopeOf(r)) <==> Holds(Normal(r.scope, true).value, Normal(r.path, false).value)
  {
    ScopesTrimmed(r);
  }

  /** A token is minted if and only if the request names a run, a session and one of the two operations, its path and its
      scope are proper paths, and the scope holds the path. */
  lemma {:induction false} MintedIff(k: Codec, defaultTtl: int, r: Request, now: int)
    ensures Mint(k, defaultTtl, r, now).Ok? <==>
            && Trim(r.run) != "" && Trim(r.session) != "" && (Trim(r.op) == "upload" || Trim(r.op) == "download")
            && Normal(r.path, false).Ok? && Normal(r.scope, true).Ok? && Holds(Normal(r.scope, true).value, Normal(r.path, false).value)
  {
    if Normal(r.path, false).Ok? && Normal(r.scope, true).Ok? { WithinIff(r); }
  }

  /** Its claims are those of the request, and it is good for as long as asked, or else for the default time. */
  lemma {:induction false} MintedSays(k: Codec, defaultTtl: int, r: Request, now: int, token: string, c: Claims)
    requires Mint(k, defaultTtl, r, now) == Ok((token, c))
    ensures Normal(r.path, false).Ok? && Normal(r.scope, true).Ok?
    ensures c.run == Trim(r.run) && c.session == Trim(r.session) && c.op == Trim(r.op) && c.path == Normal(r.path, false).value
    ensures c.scope == if Normal(r.scope, true).value == "" then c.path else Normal(r.scope, true).value
    ensures c.issued == now / 1_000_000_000 && c.expires == (now + if r.ttl > 0 then r.ttl else defaultTtl) / 1_000_000_000
  {}

  // ---- a minted token parses to its claims ----

  lemma {:induction false} TokenIsTrimmed(a: string, b: string)
    requires (forall c :: c in a ==> !IsSpace(c)) && (forall c :: c in b ==> !IsSpace(c))
    ensures Trim(a + "." + b) == a + "." + b
  {
    var t := a + "." + b;
    assert t[0] == '.' || t[0] in a;
    assert t[|t| - 1] == '.' || t[|t| - 1] in b;
  }

  lemma {:induction false} ParseSigned(k: Codec, c: Claims)
    requires Faithful(k) && Sound(c)
    ensures Parse(k, Sign(k, c)) == Ok(c) && Trim(Sign(k, c)) == Sign(k, c) != ""
  {
    var payload := k.marshal(c);
    var a, b := B.Encode(payload), B.Encode(k.mac(payload));
    B.PlainText(payload);
    B.PlainText(k.mac(payload));
    TokenIsTrimmed(a, b);
    SplitAt(a, b, '.');
    SplitWord(a, '.');
    SplitWord(b, '.');
    B.RoundTrip(payload);
    B.RoundTrip(k.mac(payload));
  }

  predicate TrimmedClaims(c: Claims) {
    Trimmed(c.run) && Trimmed(c.session) && Trimmed(c.scope) && Trimmed(c.path) && Trimmed(c.op)
  }

  /** The claims of a minted token: trimmed, sound, and its path within its scope. */
  lemma {:induction false} ClaimsAreSound(r: Request, issued: int, expires: int)
    requires Refusal(r).None? && 0 < issued <= expires
    ensures var c := ClaimsOf(r, issued, expires); Sound(c) && TrimmedClaims(c) && WithinScope(c.path, c.scope) && c.path != ""
  {
    ScopesTrimmed(r);
    OpTrimmed(r.op);
  }

  lemma {:induction false} WholeSeconds(now: int, ttl: int)
    requires now >= SECOND && ttl > 0
    ensures 0 < Seconds(now) <= Seconds(now + ttl)
  {}

  lemma {:induction false} OpTrimmed(op: string)
    requires NormalOp(op).Ok?
    ensures Trimmed(NormalOp(op).value) && NormalOp(NormalOp(op).value).Ok?
  {}

  lemma {:induction false} ScopesTrimmed(r: Request)
    requires Normal(r.path, false).Ok? && Normal(r.scope, true).Ok?
    ensures Trimmed(Normal(r.path, false).value) && Normal(r.path, false).value != "" && Trimmed(Normal(r.scope, true).value)
  {
    PathIsTrimmed(r.path);
    if Normal(r.scope, true).value != "" { ScopeIsTrimmed(r.scope); }
  }

  lemma {:induction false} PathIsTrimmed(raw: string)
    requires Normal(raw, false).Ok?
    ensures Trimmed(Normal(raw, false).value) && Normal(raw, false).value != ""
  {
    NormalNotEmpty(raw);
    var parts := NormalIsClean(raw, false);
    JoinTrimmed(parts);
  }

  lemma {:induction false} ScopeIsTrimmed(raw: string)
    requires Normal(raw, true).Ok? && Normal(raw, true).value != ""
    ensures Trimmed(Normal(raw, true).value)
  {
    var parts := NormalIsClean(raw, true);
    JoinTrimmed(parts);
  }

  /** The request that a token with these claims is for. */
  predicate IsFor(c: Claims, run: string, path: string, op: string, now: int) {
    Trim(run) == c.run && NormalOp(op) == Ok(c.op) && Normal(path, false) == Ok(c.path) && now <= c.expires * SECOND
  }

  /** The token is accepted for exactly these requests, and with these claims. */
  ghost predicate AcceptedExactly(k: Codec, token: string, c: Claims) {
    forall run, path, op, now ::
      && (Validate(k, token, run, path, op, now).Ok? <==> IsFor(c, run, path, op, now))
      && (IsFor(c, run, path, op, now) ==> Validate(k, token, run, path, op, now) == Ok(c))
  }

  lemma {:induction false} SignedAccepted(k: Codec, c: Claims, run: string, path: string, op: string, now: int)
    requires Faithful(k) && Sound(c) && TrimmedClaims(c) && WithinScope(c.path, c.scope) && c.path != ""
    ensures Validate(k, Sign(k, c), run, path, op, now).Ok? <==> IsFor(c, run, path, op, now)
    ensures IsFor(c, run, path, op, now) ==> Validate(k, Sign(k, c), run, path, op, now) == Ok(c)
  {
    ParseSigned(k, c);
  }

  lemma {:induction false} SignedAcceptedExactly(k: Codec, c: Claims)
    requires Faithful(k) && Sound(c) && TrimmedClaims(c) && WithinScope(c.path, c.scope) && c.path != ""
    ensures AcceptedExactly(k, Sign(k, c), c)
  {
    forall run, path, op, now
      ensures Validate(k, Sign(k, c), run, path, op, now).Ok? <==> IsFor(c, run, path, op, now)
      ensures IsFor(c, run, path, op, now) ==> Validate(k, Sign(k, c), run, path, op, now) == Ok(c)
    {
      SignedAccepted(k, c, run, path, op, now);
    }
  }

  /** A minted token is accepted exactly for the run, the operation and the path it was minted for, up to the end of its
      last full second, and it is accepted with the claims it was minted with. */
  lemma {:induction false} MintedAcceptedExactly(k: Codec, defaultTtl: int, r: Request, minted: int)
    requires Faithful(k) && defaultTtl > 0 && minted >= SECOND && Mint(k, defaultTtl, r, minted).Ok?
    ensures AcceptedExactly(k, Mint(k, defaultTtl, r, minted).value.0, Mint(k, defaultTtl, r, minted).value.1)
  {
    var issued, expires := Seconds(minted), Seconds(minted + TtlOf(r, defaultTtl));
    WholeSeconds(minted, TtlOf(r, defaultTtl));
    AnyClaimsAccepted(k, r, issued, expires);
    var c := ClaimsOf(r, issued, expires);
    MintIs(k, defaultTtl, r, minted, c);
    assert AcceptedExactly(k, Sign(k, c), c);
  }

  lemma {:induction false} MintIs(k: Codec, defaultTtl: int, r: Request, now: int, c: Claims)
    requires Refusal(r).None? && c == ClaimsOf(r, Seconds(now), Seconds(now + TtlOf(r, defaultTtl)))
    ensures Mint(k, defaultTtl, r, now) == Ok((Sign(k, c), c))
  {
    var m := Mint(k, defaultTtl, r, now);
    assert m.Ok? && m.value.1 == c;
    assert m.value.0 == Sign(k, c);
  }

  lemma {:induction false} AnyClaimsAccepted(k: Codec, r: Request, issued: int, expires: int)
    requires Faithful(k) && Refusal(r).None? && 0 < issued <= expires
    ensures AcceptedExactly(k, Sign(k, ClaimsOf(r, issued, expires)), ClaimsOf(r, issued, expires))
  {
    ClaimsAreSound(r, issued, expires);
    SignedAcceptedExactly(k, ClaimsOf(r, issued, expires));
  }

  /** The end of its last full second, the lifetime being the one asked for, or else the default one. */
  function Until(r: Request, defaultTtl: int, minted: int): int {
    (minted + if r.ttl > 0 then r.ttl else defaultTtl) / 1_000_000_000 * 1_000_000_000
  }

  lemma {:induction false} UntilIs(r: Request, defaultTtl: int, minted: int)
    ensures Until(r, defaultTtl, minted) == Seconds(minted + TtlOf(r, defaultTtl)) * SECOND
  {}

  lemma {:induction false} GoodWhile(k: Codec, defaultTtl: int, r: Request, minted: int, token: string, c: Claims, now: int, inTime: bool)
    requires Faithful(k) && defaultTtl > 0 && minted >= SECOND && Mint(k, defaultTtl, r, minted) == Ok((token, c))
    requires inTime <==> now <= Seconds(minted + TtlOf(r, defaultTtl)) * SECOND
    ensures Validate(k, token, r.run, r.path, r.op, now).Ok? <==> inTime
  {
    MintIs(k, defaultTtl, r, minted, ClaimsOf(r, Seconds(minted), Seconds(minted + TtlOf(r, defaultTtl))));
    MintedAcceptedExactly(k, defaultTtl, r, minted);
    assert IsFor(c, r.run, r.path, r.op, now) <==> now <= c.expires * SECOND;
  }

  /** Used for what it was minted for, a token is good up to and including its last full second, whenever it is used. */
  lemma {:induction false} GoodUntil(k: Codec, defaultTtl: int, r: Request, minted: int, token: string, c: Claims, now: int, until: int)
    requires Faithful(k) && defaultTtl > 0 && minted >= SECOND && Mint(k, defaultTtl, r, minted) == Ok((token, c)) && until == Until(r, defaultTtl, minted)
    ensures Validate(k, token, r.run, r.path, r.op, now).Ok? <==> now <= until
  {
    UntilIs(r, defaultTtl, minted);
    GoodWhile(k, defaultTtl, r, minted, token, c, now, now <= until);
  }

  /** Cutting to whole seconds keeps a time behind another one exactly if the way to it reaches a full second. */
  lemma {:induction false} CutKeepsIff(now: int, ttl: int)
    requires now >= 0 && ttl > 0
    ensures now <= (now + ttl) / 1_000_000_000 * 1_000_000_000 <==> now % 1_000_000_000 == 0 || now % 1_000_000_000 + ttl >= 1_000_000_000
  {
    var q, m := now / SECOND, now % SECOND;
    assert now == q * SECOND + m;
    if m + ttl < SECOND { assert (now + ttl) / SECOND == q; }
  }

  /** The lifetime reaches the next full second, or starts on one. */
  predicate Reaches(ttl: int, now: int) {
    now % 1_000_000_000 == 0 || now % 1_000_000_000 + ttl >= 1_000_000_000
  }

  /** The expiry is cut to whole seconds, so a token is good at the moment it is minted if and only if its lifetime reaches
      the next full second, or it is minted on one. Any lifetime of a second or more does. */
  lemma {:induction false} GoodAtBirthIff(k: Codec, defaultTtl: int, r: Request, now: int, token: string, c: Claims, ttl: int, good: bool)
    requires Faithful(k) && defaultTtl > 0 && now >= SECOND && Mint(k, defaultTtl, r, now) == Ok((token, c))
    requires ttl == (if r.ttl > 0 then r.ttl else defaultTtl) && (good <==> Reaches(ttl, now))
    ensures Validate(k, token, r.run, r.path, r.op, now).Ok? <==> good
  {
    ReachesIff(r, defaultTtl, now, ttl, good);
    GoodWhile(k, defaultTtl, r, now, token, c, now, good);
  }

  lemma {:induction false} ReachesIff(r: Request, defaultTtl: int, now: int, ttl: int, good: bool)
    requires defaultTtl > 0 && now >= SECOND && ttl == (if r.ttl > 0 then r.ttl else defaultTtl) && (good <==> Reaches(ttl, now))
    ensures good <==> now <= Seconds(now + TtlOf(r, defaultTtl)) * SECOND
  {
    CutKeepsIff(now, ttl);
  }

  // ---- what is accepted ----

  lemma {:induction false} TwoParts(s: string, sep: char)
    requires |Split(s, sep)| == 2
    ensures var parts := Split(s, sep); s == parts[0] + [sep] + parts[1] && sep !in parts[0] && sep !in parts[1]
  {
    JoinSplit(s, sep);
    SplitHasNone(s, sep, sep);
    var parts := Split(s, sep);
    assert parts[0] in parts && parts[1] in parts && parts[1..] == [parts[1]];
  }

  lemma {:induction false} ParsedIsSigned(k: Codec, token: string) returns (a: string, b: string)
    requires Parse(k, token).Ok?
    ensures token == a + "." + b && '.' !in a && '.' !in b
    ensures B.Decode(a).Some? && B.Decode(b) == Some(k.mac(B.Decode(a).value)) && k.unmarshal(B.Decode(a).value) == Some(Parse(k, token).value)
    ensures Trim(Parse(k, token).value.path) != "" && 0 < Parse(k, token).value.issued <= Parse(k, token).value.expires
  {
    TwoParts(token, '.');
    a, b := Split(token, '.')[0], Split(token, '.')[1];
  }

  /** Whatever text is accepted, it is a payload and the keyed hash of that payload, and the claims in the payload are for
      this very run, operation and path, and not over. */
  lemma {:induction false} AcceptedIsSigned(k: Codec, token: string, run: string, path: string, op: string, now: int)
    returns (a: string, b: string, c: Claims)
    requires Validate(k, token, run, path, op, now).Ok?
    ensures Trim(token) == a + "." + b && '.' !in a && '.' !in b
    ensures B.Decode(a).Some? && B.Decode(b) == Some(k.mac(B.Decode(a).value)) && k.unmarshal(B.Decode(a).value) == Some(c)
    ensures Trim(c.run) == Trim(run) != "" && Trim(c.op) == Trim(op) && Normal(path, false) == Ok(Trim(c.path))
    ensures 0 < c.issued <= c.expires && now <= c.expires * 1_000_000_000
  {
    a, b := ParsedIsSigned(k, Trim(token));
    c := Parse(k, Trim(token)).value;
  }

  /** An upload of "a", minted for one nanosecond and one nanosecond behind a full second. */
  const SHORT := Request("run", "session", "", "a", UPLOAD, 1)

  lemma {:induction false} NormalOfA()
    ensures Normal("a", false) == Ok("a")
  {
    assert Join(["a"], '/') == "a" && IsComponent("a");
    NormalIsFixed(["a"], false);
  }

  lemma {:induction false} NormalOfNothing()
    ensures Normal("", true) == Ok("")
  {
    assert ToSlash("") == "";
  }

  lemma {:induction false} ShortIsRight()
    ensures Refusal(SHORT).None?
  {
    NormalOfA();
    NormalOfNothing();
    assert Trimmed("run") && Trimmed("session") && Trimmed("a");
    assert NormalOp(UPLOAD) == Ok(UPLOAD) by { assert Trimmed(UPLOAD); }
  }

  lemma {:induction false} ShortIsMinted(k: Codec) returns (token: string, c: Claims)
    ensures Mint(k, 1, SHORT, SECOND + 1) == Ok((token, c))
  {
    ShortIsRight();
    token, c := Mint(k, 1, SHORT, SECOND + 1).value.0, Mint(k, 1, SHORT, SECOND + 1).value.1;
  }

  lemma {:induction false} ShortIsOver()
    ensures !(SECOND + 1 <= Seconds(SECOND + 1 + 1) * SECOND)
  {}

  lemma {:induction false} ShortIsRefused(k: Codec, r: Request, token: string, c: Claims)
    requires Faithful(k) && r.ttl == 1 && Mint(k, 1, r, SECOND + 1) == Ok((token, c))
    ensures !Validate(k, token, r.run, r.path, r.op, SECOND + 1).Ok?
  {
    ShortIsOver();
    GoodWhile(k, 1, r, SECOND + 1, token, c, SECOND + 1, false);
  }

  /** It is refused at the very moment it is minted. */
  lemma {:induction false} ExpiredAtBirth(k: Codec) returns (r: Request, token: string, c: Claims)
    requires Faithful(k)
    ensures r == SHORT && Mint(k, 1, r, SECOND + 1) == Ok((token, c))
    ensures !Validate(k, token, r.run, r.path, r.op, SECOND + 1).Ok?
  {
    r := SHORT;
    token, c := ShortIsMinted(k);
    ShortIsRefused(k, r, token, c);
  }
}
