/**
 * The JavaScript string operations the site's data pipeline relies on:
 * `trim`, `toLowerCase`/`toUpperCase` (ASCII letters only), `includes`,
 * `startsWith`, `split("-")` and `join(" ")`.
 */
module Text {

  /** The characters `String.prototype.trim` removes: ECMAScript WhiteSpace and LineTerminator. */
  predicate IsWhiteSpace(c: char) {
    c == '\t' || c == '\n' || c == '\U{000B}' || c == '\U{000C}' || c == '\r' || c == ' ' ||
    c == '\U{00A0}' || c == '\U{1680}' || ('\U{2000}' <= c <= '\U{200A}') ||
    c == '\U{2028}' || c == '\U{2029}' || c == '\U{202F}' || c == '\U{205F}' ||
    c == '\U{3000}' || c == '\U{FEFF}'
  }

  predicate AllWhiteSpace(s: string) {
    forall i :: 0 <= i < |s| ==> IsWhiteSpace(s[i])
  }

  /** Neither the first nor the last character is white space. */
  predicate IsTrimmed(s: string) {
    s == [] || (!IsWhiteSpace(s[0]) && !IsWhiteSpace(s[|s| - 1]))
  }

  /** The first index at or after `i` that does not hold white space (`|s|` if none). */
  function LeadEnd(s: string, i: nat): (r: nat)
    requires i <= |s|
    ensures i <= r <= |s|
    ensures forall k :: i <= k < r ==> IsWhiteSpace(s[k])
    ensures r < |s| ==> !IsWhiteSpace(s[r])
    decreases |s| - i
  {
    if i < |s| && IsWhiteSpace(s[i]) then LeadEnd(s, i + 1) else i
  }

  /** The start of the white-space run that ends `s[lo..hi]`. */
  function TrailStart(s: string, lo: nat, hi: nat): (r: nat)
    requires lo <= hi <= |s|
    ensures lo <= r <= hi
    ensures forall k :: r <= k < hi ==> IsWhiteSpace(s[k])
    ensures lo < r ==> !IsWhiteSpace(s[r - 1])
    decreases hi
  {
    if lo < hi && IsWhiteSpace(s[hi - 1]) then TrailStart(s, lo, hi - 1) else hi
  }

  /** `s.trim()` */
  function Trim(s: string): (r: string)
    ensures IsTrimmed(r)
    ensures |r| <= |s|
  {
    var n := LeadEnd(s, 0);
    s[n..TrailStart(s, n, |s|)]
  }

  /** `!s.trim()`: the string is empty or white space only. */
  predicate IsBlank(s: string) {
    Trim(s) == ""
  }

  /** Trim keeps a slice of `s` with white space only before and after it. */
  lemma TrimBounds(s: string) returns (n: nat, e: nat)
    ensures n <= e <= |s| && Trim(s) == s[n..e]
    ensures AllWhiteSpace(s[..n]) && AllWhiteSpace(s[e..])
  {
    n := LeadEnd(s, 0);
    e := TrailStart(s, n, |s|);
    forall k | 0 <= k < |s[e..]| ensures IsWhiteSpace(s[e..][k]) {
      assert s[e..][k] == s[e + k];
    }
  }

  /** Trim cuts `s` into a white-space prefix, the result, and a white-space suffix. */
  lemma TrimSplit(s: string) returns (a: string, b: string)
    ensures s == a + Trim(s) + b
    ensures AllWhiteSpace(a) && AllWhiteSpace(b)
  {
    var n, e := TrimBounds(s);
    a, b := s[..n], s[e..];
    assert s == s[..n] + s[n..e] + s[e..];
  }

  /** The leading white space of `s` from `i` ends at any `j` that only white space precedes and that is not white space. */
  lemma LeadEndIs(s: string, i: nat, j: nat)
    requires i <= j <= |s|
    requires forall k :: i <= k < j ==> IsWhiteSpace(s[k])
    requires j < |s| ==> !IsWhiteSpace(s[j])
    ensures LeadEnd(s, i) == j
  {
  }

  /** The trailing white space of `s[lo..hi]` starts at any `j` that only white space follows and that follows no white space. */
  lemma TrailStartIs(s: string, lo: nat, hi: nat, j: nat)
    requires lo <= j <= hi <= |s|
    requires forall k :: j <= k < hi ==> IsWhiteSpace(s[k])
    requires lo < j ==> !IsWhiteSpace(s[j - 1])
    ensures TrailStart(s, lo, hi) == j
  {
  }

  /** Trim is determined by that cut: white space around a trimmed string is all it removes. */
  lemma TrimUnique(a: string, r: string, b: string)
    requires AllWhiteSpace(a) && AllWhiteSpace(b) && IsTrimmed(r)
    ensures Trim(a + r + b) == r
  {
    var s := a + r + b;
    forall k | 0 <= k < |a| ensures IsWhiteSpace(s[k]) {
      assert s[k] == a[k];
    }
    forall k | |a| + |r| <= k < |s| ensures IsWhiteSpace(s[k]) {
      assert s[k] == b[k - |a| - |r|];
    }
    if r == [] {
      LeadEndIs(s, 0, |s|);
      TrailStartIs(s, |s|, |s|, |s|);
      assert Trim(s) == s[|s|..|s|];
    } else {
      assert s[|a|] == r[0] && s[|a| + |r| - 1] == r[|r| - 1];
      LeadEndIs(s, 0, |a|);
      TrailStartIs(s, |a|, |s|, |a| + |r|);
      assert s[|a|..|a| + |r|] == r;
    }
  }

  /** White space around a string never changes what trim gives. */
  lemma TrimIgnoresSurroundingSpace(a: string, s: string, b: string)
    requires AllWhiteSpace(a) && AllWhiteSpace(b)
    ensures Trim(a + s + b) == Trim(s)
  {
    var a', b' := TrimSplit(s);
    var t := Trim(s);
    WhiteSpaceAppend(a, a');
    WhiteSpaceAppend(b', b);
    Regroup(a, a', t, b', b);
    TrimUnique(a + a', t, b' + b);
  }

  lemma WhiteSpaceAppend(x: string, y: string)
    requires AllWhiteSpace(x) && AllWhiteSpace(y)
    ensures AllWhiteSpace(x + y)
  {
    forall k | 0 <= k < |x + y| ensures IsWhiteSpace((x + y)[k]) {
      if k >= |x| {
        assert (x + y)[k] == y[k - |x|];
      }
    }
  }

  lemma Regroup<T>(a: seq<T>, b: seq<T>, c: seq<T>, d: seq<T>, e: seq<T>)
    ensures a + (b + c + d) + e == (a + b) + c + (d + e)
  {
  }

  /** A string is blank exactly when all its characters are white space. */
  lemma BlankIffAllWhiteSpace(s: string)
    ensures IsBlank(s) <==> AllWhiteSpace(s)
  {
    var a, b := TrimSplit(s);
    if AllWhiteSpace(s) {
      assert s == s + "" + "";
      TrimUnique(s, "", "");
    }
  }

  /** ASCII lower-casing of one character. */
  function LowerChar(c: char): char {
    if 'A' <= c <= 'Z' then (c as int + 32) as char else c
  }

  /** ASCII upper-casing of one character. */
  function UpperChar(c: char): char {
    if 'a' <= c <= 'z' then (c as int - 32) as char else c
  }

  /** `s.toLowerCase()` (ASCII letters only). */
  function ToLower(s: string): (r: string)
    ensures |r| == |s|
    ensures forall i :: 0 <= i < |s| ==> r[i] == LowerChar(s[i])
  {
    seq(|s|, i requires 0 <= i < |s| => LowerChar(s[i]))
  }

  lemma ToLowerAppend(x: string, y: string)
    ensures ToLower(x + y) == ToLower(x) + ToLower(y)
  {
  }

  /** Lower-casing and trimming commute, because case mapping keeps white space and non-white space apart. */
  lemma ToLowerTrimCommute(s: string)
    ensures ToLower(Trim(s)) == Trim(ToLower(s))
  {
    var a, b := TrimSplit(s);
    var t := Trim(s);
    ToLowerAppend(a + t, b);
    ToLowerAppend(a, t);
    assert ToLower(s) == ToLower(a) + ToLower(t) + ToLower(b);
    ToLowerKeepsSpace(a);
    ToLowerKeepsSpace(b);
    ToLowerKeepsTrimmed(t);
    TrimUnique(ToLower(a), ToLower(t), ToLower(b));
  }

  lemma LowerCharKeepsSpace(c: char)
    ensures IsWhiteSpace(LowerChar(c)) == IsWhiteSpace(c)
  {
  }

  lemma ToLowerKeepsSpace(s: string)
    requires AllWhiteSpace(s)
    ensures AllWhiteSpace(ToLower(s))
  {
    forall i | 0 <= i < |s| ensures IsWhiteSpace(ToLower(s)[i]) {
      LowerCharKeepsSpace(s[i]);
    }
  }

  lemma ToLowerKeepsTrimmed(s: string)
    requires IsTrimmed(s)
    ensures IsTrimmed(ToLower(s))
  {
    if s != [] {
      LowerCharKeepsSpace(s[0]);
      LowerCharKeepsSpace(s[|s| - 1]);
    }
  }

  /** Lower-casing twice is lower-casing once. */
  lemma ToLowerIdempotent(s: string)
    ensures ToLower(ToLower(s)) == ToLower(s)
  {
  }

  /** `t` occurs in `s` starting at index `i`. */
  predicate OccursAt(s: string, t: string, i: int) {
    0 <= i && i + |t| <= |s| && s[i..i + |t|] == t
  }

  /** `s.includes(t)` */
  function Contains(s: string, t: string): bool
    decreases |s|
  {
    |t| <= |s| && (s[..|t|] == t || (s != [] && Contains(s[1..], t)))
  }

  /** `includes` holds exactly when there is a position where `t` occurs. */
  lemma {:induction false} ContainsIff(s: string, t: string)
    ensures Contains(s, t) <==> exists i :: OccursAt(s, t, i)
    decreases |s|
  {
    if |t| <= |s| && s != [] {
      ContainsIff(s[1..], t);
      if s[..|t|] == t {
        assert OccursAt(s, t, 0);
      }
      if Contains(s[1..], t) {
        var i :| OccursAt(s[1..], t, i);
        assert OccursAt(s, t, i + 1);
      }
      if i :| OccursAt(s, t, i) {
        if i > 0 {
          assert s[1..][i - 1..i - 1 + |t|] == s[i..i + |t|];
          assert OccursAt(s[1..], t, i - 1);
        } else {
          assert s[..|t|] == s[0..|t|];
        }
      }
    } else if s == [] && |t| <= |s| {
      assert OccursAt(s, t, 0);
    }
  }

  /** A string that occurs at some position is included. */
  lemma ContainsAt(s: string, t: string, i: int)
    requires OccursAt(s, t, i)
    ensures Contains(s, t)
  {
    ContainsIff(s, t);
  }

  /** A string that is included occurs at some position inside it. */
  lemma ContainsWitness(s: string, t: string) returns (i: nat)
    requires Contains(s, t)
    ensures OccursAt(s, t, i)
  {
    ContainsIff(s, t);
    var j :| OccursAt(s, t, j);
    i := j;
  }

  /** Every string includes the empty string. */
  lemma ContainsEmpty(s: string)
    ensures Contains(s, "")
  {
    assert OccursAt(s, "", 0);
    ContainsIff(s, "");
  }

  /** `s.startsWith(p)` */
  predicate StartsWith(s: string, p: string) {
    |p| <= |s| && s[..|p|] == p
  }

  /** `s.indexOf(c)`, or `|s|` when `c` does not occur. */
  function IndexOf(s: string, c: char): (i: nat)
    ensures i <= |s|
    ensures i < |s| ==> s[i] == c
    ensures c !in s[..i]
  {
    if s == [] then 0 else if s[0] == c then 0 else 1 + IndexOf(s[1..], c)
  }

  /** `s.split(sep)` for a one-character separator: always at least one part. */
  function Split(s: string, sep: char): (parts: seq<string>)
    ensures |parts| >= 1
    ensures forall k :: 0 <= k < |parts| ==> sep !in parts[k]
    decreases |s|
  {
    var i := IndexOf(s, sep);
    if i == |s| then
      assert s[..i] == s;
      [s]
    else
      [s[..i]] + Split(s[i + 1..], sep)
  }

  /** `parts.join(sep)` for a one-character separator. */
  function Join(parts: seq<string>, sep: char): string {
    if parts == [] then ""
    else if |parts| == 1 then parts[0]
    else parts[0] + [sep] + Join(parts[1..], sep)
  }

  /** Splitting and joining back with the same separator gives the original string. */
  lemma {:induction false} JoinSplit(s: string, sep: char)
    ensures Join(Split(s, sep), sep) == s
    decreases |s|
  {
    var i := IndexOf(s, sep);
    if i == |s| {
      assert s[..i] == s;
    } else {
      var rest := Split(s[i + 1..], sep);
      assert Split(s, sep) == [s[..i]] + rest;
      JoinCons(s[..i], rest, sep);
      JoinSplit(s[i + 1..], sep);
      assert s == s[..i] + [sep] + s[i + 1..];
    }
  }

  lemma JoinCons(x: string, rest: seq<string>, sep: char)
    requires |rest| >= 1
    ensures Join([x] + rest, sep) == x + [sep] + Join(rest, sep)
  {
    assert ([x] + rest)[1..] == rest;
  }
}
