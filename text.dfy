/**
 * The string operations of the application, restricted to ASCII: JavaScript's `trim`
 * (whitespace and line terminators), `toLowerCase` and the upper-casing of one letter (A-Z),
 * `includes`, `startsWith`, `join(",")` and `split(":")[0]`, and the permission
 * normalisation `norm(s) = s.trim().toLowerCase()`.
 */
module Text {

  /** ASCII whitespace removed by `trim`: space, tab, line feed, vertical tab, form feed, carriage return. */
  predicate IsSpace(c: char) {
    c == ' ' || 9 <= c as int <= 13
  }

  predicate IsUpper(c: char) { 'A' <= c <= 'Z' }
  predicate IsLower(c: char) { 'a' <= c <= 'z' }
  predicate IsLetter(c: char) { IsUpper(c) || IsLower(c) }

  function LowerChar(c: char): (r: char)
    ensures !IsUpper(r)
    ensures IsLetter(c) <==> IsLetter(r)
    ensures IsSpace(c) <==> IsSpace(r)
    ensures !IsLetter(c) ==> r == c
  {
    if IsUpper(c) then (c as int + 32) as char else c
  }

  function UpperChar(c: char): (r: char)
    ensures !IsLower(r)
    ensures IsLetter(c) <==> IsLetter(r)
    ensures IsSpace(c) <==> IsSpace(r)
    ensures !IsLetter(c) ==> r == c
  {
    if IsLower(c) then (c as int - 32) as char else c
  }

  /** `toLowerCase`, character by character. */
  function Lower(s: string): (r: string)
    ensures |r| == |s|
    ensures forall i :: 0 <= i < |s| ==> r[i] == LowerChar(s[i])
  {
    seq(|s|, i requires 0 <= i < |s| => LowerChar(s[i]))
  }

  function TrimStart(s: string): string {
    if s != [] && IsSpace(s[0]) then TrimStart(s[1..]) else s
  }

  function TrimEnd(s: string): string {
    if s != [] && IsSpace(s[|s| - 1]) then TrimEnd(s[..|s| - 1]) else s
  }

  /** `TrimStart` removes a whitespace prefix and leaves a string that does not start with whitespace. */
  lemma {:induction false} TrimStartRemovesPrefix(s: string)
    ensures |TrimStart(s)| <= |s| && TrimStart(s) == s[|s| - |TrimStart(s)|..]
    ensures TrimStart(s) != [] ==> !IsSpace(TrimStart(s)[0])
    ensures forall i :: 0 <= i < |s| - |TrimStart(s)| ==> IsSpace(s[i])
    decreases |s|
  {
    if s != [] && IsSpace(s[0]) {
      TrimStartRemovesPrefix(s[1..]);
    }
  }

  /** `TrimEnd` removes a whitespace suffix and leaves a string that does not end with whitespace. */
  lemma {:induction false} TrimEndRemovesSuffix(s: string)
    ensures |TrimEnd(s)| <= |s| && TrimEnd(s) == s[..|TrimEnd(s)|]
    ensures TrimEnd(s) != [] ==> !IsSpace(TrimEnd(s)[|TrimEnd(s)| - 1])
    ensures forall i :: |TrimEnd(s)| <= i < |s| ==> IsSpace(s[i])
    decreases |s|
  {
    if s != [] && IsSpace(s[|s| - 1]) {
      TrimEndRemovesSuffix(s[..|s| - 1]);
    }
  }

  /** `trim`: leading and trailing whitespace removed. */
  function Trim(s: string): string {
    TrimEnd(TrimStart(s))
  }

  /** `s.trim().toLowerCase()`, the normalisation of role codes and permission strings. */
  function Norm(s: string): string {
    Lower(Trim(s))
  }

  /** A string with no whitespace at either end is unchanged by `trim`. */
  lemma TrimTrimmed(s: string)
    requires s != [] ==> !IsSpace(s[0]) && !IsSpace(s[|s| - 1])
    ensures Trim(s) == s
  {
  }

  /** The trimmed string starts and ends with non-whitespace, or is empty. */
  lemma TrimEnds(s: string)
    ensures Trim(s) != [] ==> !IsSpace(Trim(s)[0]) && !IsSpace(Trim(s)[|Trim(s)| - 1])
  {
    var t := TrimStart(s);
    var r := TrimEnd(t);
    TrimStartRemovesPrefix(s);
    TrimEndRemovesSuffix(t);
    if r != [] {
      assert r[0] == t[0];
    }
  }

  /** Trimming twice is trimming once. */
  lemma TrimIdempotent(s: string)
    ensures Trim(Trim(s)) == Trim(s)
  {
    TrimEnds(s);
    TrimTrimmed(Trim(s));
  }

  /** Lower-casing twice is lower-casing once. */
  lemma LowerIdempotent(s: string)
    ensures Lower(Lower(s)) == Lower(s)
  {
  }

  /** Normalising twice is normalising once, so normalised codes compare equal to themselves. */
  lemma NormIdempotent(s: string)
    ensures Norm(Norm(s)) == Norm(s)
  {
    var t := Trim(s);
    TrimEnds(s);
    var l := Lower(t);
    assert l != [] ==> !IsSpace(l[0]) && !IsSpace(l[|l| - 1]);
    TrimTrimmed(l);
    LowerIdempotent(t);
  }

  /** A string whose lower-case form is a normalised string normalises to that string. */
  lemma LowerMatchesNorm(s: string, x: string)
    requires Lower(s) == Norm(x)
    ensures Norm(s) == Norm(x)
  {
    var e := Norm(x);
    TrimEnds(x);
    assert s != [] ==> !IsSpace(s[0]) && !IsSpace(s[|s| - 1]) by {
      if s != [] {
        assert LowerChar(s[0]) == e[0];
        assert LowerChar(s[|s| - 1]) == e[|e| - 1];
      }
    }
    TrimTrimmed(s);
  }

  /** `s.startsWith(p)`. */
  predicate StartsWith(s: string, p: string) {
    |p| <= |s| && s[..|p|] == p
  }

  /** `s.includes(sub)`: `sub` occurs somewhere in `s` (the empty string occurs everywhere). */
  predicate Contains(s: string, sub: string)
    decreases |s|
  {
    |sub| <= |s| && (s[..|sub|] == sub || (s != [] && Contains(s[1..], sub)))
  }

  /** `Contains` holds exactly when `sub` occurs at some position of `s`. */
  lemma {:induction false} ContainsAt(s: string, sub: string)
    ensures Contains(s, sub) <==> exists k :: 0 <= k <= |s| - |sub| && OccursAt(s, sub, k)
    decreases |s|
  {
    if |sub| > |s| {
    } else if s[..|sub|] == sub {
      assert OccursAt(s, sub, 0);
    } else {
      ContainsAt(s[1..], sub);
      if Contains(s[1..], sub) {
        var k :| 0 <= k <= |s[1..]| - |sub| && OccursAt(s[1..], sub, k);
        assert OccursAt(s, sub, k + 1);
      }
      if exists k :: 0 <= k <= |s| - |sub| && OccursAt(s, sub, k) {
        var k :| 0 <= k <= |s| - |sub| && OccursAt(s, sub, k);
        assert OccursAt(s[1..], sub, k - 1);
      }
    }
  }

  ghost predicate OccursAt(s: string, sub: string, k: int) {
    0 <= k && k + |sub| <= |s| && s[k..k + |sub|] == sub
  }

  /** The empty search term is contained in every string. */
  lemma ContainsEmpty(s: string)
    ensures Contains(s, "")
  {
  }

  /** `parts.join(sep)`. */
  function Join(parts: seq<string>, sep: string): string {
    if parts == [] then ""
    else if |parts| == 1 then parts[0]
    else parts[0] + sep + Join(parts[1..], sep)
  }

  /** `p.split(":")[0]`: the text before the first colon, or all of `p` when there is none. */
  function ModuleOf(p: string): (r: string)
    ensures |r| <= |p| && r == p[..|r|]
    ensures ':' !in r
    ensures |r| < |p| ==> p[|r|] == ':'
  {
    if p == [] || p[0] == ':' then "" else [p[0]] + ModuleOf(p[1..])
  }

  /** The module of `<m>:<a>` is `m` when `m` itself has no colon. */
  lemma {:induction false} ModuleOfQualified(m: string, a: string)
    requires ':' !in m
    ensures ModuleOf(m + ":" + a) == m
    decreases |m|
  {
    if m != [] {
      assert (m + ":" + a)[1..] == m[1..] + ":" + a;
      ModuleOfQualified(m[1..], a);
    }
  }
}
