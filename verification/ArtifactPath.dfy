/** Artifact paths: how they are normalized, and what being within a scope means. */
module ArtifactPath {
  import opened Text

  /** strings.Split on one character. */
  function Split(s: string, sep: char): (r: seq<string>)
    ensures |r| >= 1
  {
    if s == "" then [""]
    else
      var rest := Split(s[1..], sep);
      if s[0] == sep then [""] + rest else Lengthen(s[0], rest)
  }

  /** One more character in front of the first part. */
  function Lengthen(c: char, parts: seq<string>): (r: seq<string>)
    requires |parts| >= 1
    ensures |r| == |parts|
  {
    [[c] + parts[0]] + parts[1..]
  }

  lemma {:induction false} LengthenConcat(c: char, a: seq<string>, b: seq<string>)
    requires |a| >= 1
    ensures Lengthen(c, a + b) == Lengthen(c, a) + b
  {
    assert (a + b)[1..] == a[1..] + b;
  }

  /** strings.Join */
  function Join(parts: seq<string>, sep: char): string {
    if parts == [] then "" else if |parts| == 1 then parts[0] else parts[0] + [sep] + Join(parts[1..], sep)
  }

  lemma {:induction false} SplitWord(w: string, sep: char)
    requires sep !in w
    ensures Split(w, sep) == [w]
  {
    if w != "" {
      SplitWord(w[1..], sep);
      assert w == [w[0]] + w[1..];
    }
  }

  lemma {:induction false} SplitCons(c: char, s: string, sep: char)
    ensures Split([c] + s, sep) == if c == sep then [""] + Split(s, sep) else Lengthen(c, Split(s, sep))
  {
    assert ([c] + s)[1..] == s;
  }

  lemma {:induction false} BlankConcat(a: seq<string>, b: seq<string>)
    ensures [""] + (a + b) == ([""] + a) + b
  {}

  /** Splitting a text at one of its separators splits both sides. */
  lemma {:induction false} SplitAt(a: string, b: string, sep: char)
    ensures Split(a + [sep] + b, sep) == Split(a, sep) + Split(b, sep)
  {
    if a == "" {
      assert a + [sep] + b == [sep] + b;
      SplitCons(sep, b, sep);
    } else {
      var tail := a[1..] + [sep] + b;
      assert a + [sep] + b == [a[0]] + tail && a == [a[0]] + a[1..];
      SplitCons(a[0], tail, sep);
      SplitCons(a[0], a[1..], sep);
      SplitAt(a[1..], b, sep);
      BlankConcat(Split(a[1..], sep), Split(b, sep));
      LengthenConcat(a[0], Split(a[1..], sep), Split(b, sep));
    }
  }

  lemma {:induction false} SplitJoin(parts: seq<string>, sep: char)
    requires parts != [] && forall p :: p in parts ==> sep !in p
    ensures Split(Join(parts, sep), sep) == parts
  {
    SplitWord(parts[0], sep);
    if |parts| == 1 {
      assert parts == [parts[0]];
    } else {
      SplitJoin(parts[1..], sep);
      SplitAt(parts[0], Join(parts[1..], sep), sep);
      assert parts == [parts[0]] + parts[1..];
    }
  }

  /** And joining the parts of a text gives the text. */
  lemma {:induction false} JoinSplit(s: string, sep: char)
    ensures Join(Split(s, sep), sep) == s
  {
    if s != "" {
      var rest := Split(s[1..], sep);
      JoinSplit(s[1..], sep);
      if s[0] == sep {
        assert ([""] + rest)[1..] == rest;
      } else if |rest| > 1 {
        assert Lengthen(s[0], rest)[1..] == rest[1..];
      }
      assert s == [s[0]] + s[1..];
    }
  }

  lemma {:induction false} JoinConcat(a: seq<string>, b: seq<string>, sep: char)
    requires a != [] && b != []
    ensures Join(a + b, sep) == Join(a, sep) + [sep] + Join(b, sep)
  {
    if |a| == 1 {
      assert (a + b)[1..] == b;
    } else {
      assert (a + b)[1..] == a[1..] + b;
      JoinConcat(a[1..], b, sep);
    }
  }

  // ---- normalization ----

  function ToSlash(s: string): string {
    seq(|s|, i requires 0 <= i < |s| => if s[i] == '\\' then '/' else s[i])
  }

  const PATH_REQUIRED := "path is required"
  const PATH_INVALID := "path is invalid"
  const SCOPE_INVALID := "scope is invalid"

  /** What a component of a normalized path looks like. */
  predicate IsComponent(p: string) {
    p != "" && Trimmed(p) && p != "." && p != ".." && '/' !in p && '\0' !in p && '\\' !in p
  }

  predicate Skipped(part: string) {
    Trim(part) == "" || Trim(part) == "."
  }

  predicate Forbidden(part: string) {
    Trim(part) == ".." || (Trim(part) != "" && '\0' in Trim(part))
  }

  predicate NoneForbidden(parts: seq<string>) {
    forall p :: p in parts ==> !Forbidden(p)
  }

  /** The components that survive, in order. */
  function Kept(parts: seq<string>): seq<string> {
    if parts == [] then [] else (if Skipped(parts[0]) then [] else [Trim(parts[0])]) + Kept(parts[1..])
  }

  /** The kept components joined again. It fails exactly when a component is forbidden, or nothing is left of a path that
      must not be empty. */
  function Normal(raw: string, allowEmpty: bool): Result<string> {
    var text := Trim(ToSlash(raw));
    var parts := Split(text, '/');
    if text == "" then (if allowEmpty then Ok("") else Err(PATH_REQUIRED))
    else if !NoneForbidden(parts) then Err(if allowEmpty then SCOPE_INVALID else PATH_INVALID)
    else if Kept(parts) == [] && !allowEmpty then Err(PATH_INVALID)
    else Ok(Join(Kept(parts), '/'))
  }

  ghost predicate AllSkipped(parts: seq<string>) {
    forall p :: p in parts ==> Skipped(p)
  }

  lemma {:induction false} KeptNothingIff(parts: seq<string>)
    ensures Kept(parts) == [] <==> AllSkipped(parts)
  {
    if parts != [] {
      KeptNothingIff(parts[1..]);
      assert AllSkipped(parts) <==> Skipped(parts[0]) && AllSkipped(parts[1..]) by {
        assert forall p :: p in parts <==> p == parts[0] || p in parts[1..];
      }
      assert |Kept(parts)| == |Kept(parts[1..])| + if Skipped(parts[0]) then 0 else 1;
    }
  }

  /** A path is refused if and only if one of its components is ".." or holds a NUL, or nothing is left of it and something
      has to be. */
  lemma {:induction false} RefusedIff(raw: string, allowEmpty: bool)
    ensures var parts := Split(Trim(ToSlash(raw)), '/');
            Normal(raw, allowEmpty).Err? <==>
            || (exists p :: p in parts && (Trim(p) == ".." || '\0' in Trim(p)))
            || (!allowEmpty && forall p :: p in parts ==> Trim(p) == "" || Trim(p) == ".")
  {
    KeptNothingIff(Split(Trim(ToSlash(raw)), '/'));
    assert Trim("") == "";
  }

  /** normalizePath */
  method NormalizePath(raw: string, allowEmpty: bool) returns (r: Result<string>)
    ensures r == Normal(raw, allowEmpty)
  {
    var text := Trim(ToSlash(raw));
    if text == "" {
      if allowEmpty { return Ok(""); }
      return Err(PATH_REQUIRED);
    }
    var parts := Split(text, '/');
    var clean: seq<string> := [];
    for i := 0 to |parts|
      invariant clean == Kept(parts[..i])
      invariant NoneForbidden(parts[..i])
    {
      KeptNext(parts, i);
      assert parts[..i + 1] == parts[..i] + [parts[i]];
      var part := Trim(parts[i]);
      if part == "" || part == "." { continue; }
      if part == ".." || '\0' in part {
        assert Forbidden(parts[i]) && parts[i] in parts;
        return Err(if allowEmpty then SCOPE_INVALID else PATH_INVALID);
      }
      clean := clean + [part];
    }
    assert parts[..|parts|] == parts;
    if |clean| == 0 {
      if allowEmpty { return Ok(""); }
      return Err(PATH_INVALID);
    }
    return Ok(Join(clean, '/'));
  }

  lemma {:induction false} KeptNext(parts: seq<string>, i: nat)
    requires i < |parts|
    ensures Kept(parts[..i + 1]) == Kept(parts[..i]) + if Skipped(parts[i]) then [] else [Trim(parts[i])]
  {
    assert parts[..i + 1] == parts[..i] + [parts[i]];
    KeptAppend(parts[..i], parts[i]);
  }

  lemma {:induction false} KeptAppend(parts: seq<string>, p: string)
    ensures Kept(parts + [p]) == Kept(parts) + if Skipped(p) then [] else [Trim(p)]
  {
    if parts == [] {
      assert [p][1..] == [] && parts + [p] == [p];
    } else {
      assert (parts + [p])[1..] == parts[1..] + [p];
      KeptAppend(parts[1..], p);
    }
  }

  /** Every component that is kept is a proper one. */
  lemma {:induction false} KeptAreComponents(parts: seq<string>)
    requires NoneForbidden(parts) && forall p :: p in parts ==> '/' !in p && '\\' !in p
    ensures forall p :: p in Kept(parts) ==> IsComponent(p)
  {
    if parts != [] {
      KeptAreComponents(parts[1..]);
      var i := TrimIsInner(parts[0]);
      forall c | c in Trim(parts[0]) ensures c in parts[0] {
        var k :| 0 <= k < |Trim(parts[0])| && Trim(parts[0])[k] == c;
        assert parts[0][i..i + |Trim(parts[0])|][k] == parts[0][i + k];
      }
    }
  }

  lemma {:induction false} SplitHasNone(s: string, sep: char, c: char)
    requires c == sep || c !in s
    ensures forall p :: p in Split(s, sep) ==> c !in p
  {
    if s != "" { SplitHasNone(s[1..], sep, c); }
  }

  lemma {:induction false} TrimHasNone(s: string, c: char)
    requires c !in s
    ensures c !in Trim(s)
  {
    var i := TrimIsInner(s);
    forall k | 0 <= k < |Trim(s)| ensures Trim(s)[k] != c { assert s[i..i + |Trim(s)|][k] == s[i + k]; }
  }

  /** What normalization accepts is empty, or a sequence of proper components. */
  lemma {:induction false} NormalIsClean(raw: string, allowEmpty: bool) returns (parts: seq<string>)
    requires Normal(raw, allowEmpty).Ok? && Normal(raw, allowEmpty).value != ""
    ensures parts != [] && (forall p :: p in parts ==> IsComponent(p)) && Normal(raw, allowEmpty).value == Join(parts, '/')
  {
    var text := Trim(ToSlash(raw));
    TrimHasNone(ToSlash(raw), '\\');
    SplitHasNone(text, '/', '/');
    SplitHasNone(text, '/', '\\');
    parts := Kept(Split(text, '/'));
    KeptAreComponents(Split(text, '/'));
  }

  lemma {:induction false} NormalNotEmpty(raw: string)
    requires Normal(raw, false).Ok?
    ensures Normal(raw, false).value != ""
  {
    var text := Trim(ToSlash(raw));
    TrimHasNone(ToSlash(raw), '\\');
    SplitHasNone(text, '/', '/');
    SplitHasNone(text, '/', '\\');
    KeptAreComponents(Split(text, '/'));
    JoinTrimmed(Kept(Split(text, '/')));
  }

  lemma {:induction false} KeepsComponents(parts: seq<string>)
    requires forall p :: p in parts ==> IsComponent(p)
    ensures Kept(parts) == parts
  {
    if parts != [] {
      assert IsComponent(parts[0]);
      KeepsComponents(parts[1..]);
    }
  }

  lemma {:induction false} JoinHasNone(parts: seq<string>, c: char)
    requires c != '/' && forall p :: p in parts ==> c !in p
    ensures c !in Join(parts, '/')
  {
    if |parts| > 1 { JoinHasNone(parts[1..], c); }
  }

  /** A normalized path is left as it is. */
  lemma {:induction false} NormalIsFixed(parts: seq<string>, allowEmpty: bool)
    requires parts != [] && forall p :: p in parts ==> IsComponent(p)
    ensures Normal(Join(parts, '/'), allowEmpty) == Ok(Join(parts, '/'))
  {
    var text := Join(parts, '/');
    JoinHasNone(parts, '\\');
    assert ToSlash(text) == text;
    JoinTrimmed(parts);
    SplitJoin(parts, '/');
    KeepsComponents(parts);
    assert NoneForbidden(parts);
  }

  /** Normalizing what was normalized changes nothing, for every text that is accepted. */
  lemma {:induction false} NormalIsIdempotent(raw: string, allowEmpty: bool)
    requires Normal(raw, allowEmpty).Ok?
    ensures Normal(Normal(raw, allowEmpty).value, allowEmpty) == Normal(raw, allowEmpty)
  {
    var text := Normal(raw, allowEmpty).value;
    if text != "" {
      var parts := NormalIsClean(raw, allowEmpty);
      NormalIsFixed(parts, allowEmpty);
    } else if allowEmpty {
      assert ToSlash("") == "";
    } else {
      NormalNotEmpty(raw);
    }
  }

  // ---- scopes ----

  /** withinScope */
  predicate WithinScope(path: string, scope: string) {
    var p, s := Trim(path), Trim(scope);
    p != "" && s != "" && (p == s || s + "/" <= p)
  }

  lemma {:induction false} JoinTrimmed(parts: seq<string>)
    requires parts != [] && forall p :: p in parts ==> IsComponent(p)
    ensures Trimmed(Join(parts, '/')) && Join(parts, '/') != ""
  {
    assert IsComponent(parts[0]);
    if |parts| > 1 {
      JoinTrimmed(parts[1..]);
      var rest, whole := Join(parts[1..], '/'), Join(parts, '/');
      assert whole[0] == parts[0][0] && whole[|whole| - 1] == rest[|rest| - 1];
    }
  }

  lemma {:induction false} TextToParts(path: seq<string>, scope: seq<string>)
    requires path != [] && scope != [] && Join(scope, '/') + "/" <= Join(path, '/')
    requires (forall p :: p in path ==> '/' !in p) && (forall p :: p in scope ==> '/' !in p)
    ensures scope <= path
  {
    var p, s := Join(path, '/'), Join(scope, '/');
    var rest := p[|s| + 1..];
    assert p == s + "/" + rest;
    SplitJoin(path, '/');
    SplitJoin(scope, '/');
    SplitAt(s, rest, '/');
  }

  lemma {:induction false} PartsToText(path: seq<string>, scope: seq<string>)
    requires scope != [] && scope < path
    ensures Join(scope, '/') + "/" <= Join(path, '/')
  {
    var rest := path[|scope|..];
    assert path == scope + rest;
    JoinConcat(scope, rest, '/');
  }

  lemma {:induction false} SameText(path: seq<string>, scope: seq<string>)
    requires path != [] && scope != [] && Join(scope, '/') == Join(path, '/')
    requires (forall p :: p in path ==> '/' !in p) && (forall p :: p in scope ==> '/' !in p)
    ensures scope == path
  {
    SplitJoin(path, '/');
    SplitJoin(scope, '/');
  }

  /** On normalized paths being within a scope means that the components of the scope are the first components of the
      path: "a/b" is within "a", and "ab" is not. */
  lemma {:induction false} WithinScopeIff(path: seq<string>, scope: seq<string>)
    requires path != [] && scope != []
    requires (forall p :: p in path ==> IsComponent(p)) && (forall p :: p in scope ==> IsComponent(p))
    ensures WithinScope(Join(path, '/'), Join(scope, '/')) <==> scope <= path
  {
    JoinTrimmed(path);
    JoinTrimmed(scope);
    var p, s := Join(path, '/'), Join(scope, '/');
    if s == p { SameText(path, scope); }
    if s + "/" <= p { TextToParts(path, scope); }
    if scope < path { PartsToText(path, scope); }
    assert scope <= path && !(scope < path) ==> scope == path;
  }
}
