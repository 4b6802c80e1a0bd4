/**
 * The JavaScript string built-ins the dashboard relies on, over Dafny strings:
 * `trim`, `toLowerCase` (ASCII letters only), `includes`, and the order used by
 * a comparator-less `Array.sort`. A Dafny `char` is a Unicode scalar value, so a
 * character outside the Basic Multilingual Plane is one `char` here where
 * JavaScript sees two UTF-16 code units.
 */
module Strings {

  /** WhiteSpace and LineTerminator code points of ECMAScript: what `trim` strips. */
  predicate IsWhiteSpace(c: char) {
    || c == ' ' || c == '\t' || c == '\n' || c == '\r'
    || c == '\U{000B}' || c == '\U{000C}' || c == '\U{00A0}' || c == '\U{1680}'
    || ('\U{2000}' <= c <= '\U{200A}')
    || c == '\U{2028}' || c == '\U{2029}' || c == '\U{202F}' || c == '\U{205F}'
    || c == '\U{3000}' || c == '\U{FEFF}'
  }

  /** Every character of `s` is white space (so `s.trim()` is empty and falsy). */
  predicate IsBlank(s: string) {
    forall i :: 0 <= i < |s| ==> IsWhiteSpace(s[i])
  }

  /** `s.trimStart()`: drops the longest white-space prefix. */
  function TrimStart(s: string): (r: string)
    ensures |r| <= |s| && r == s[|s| - |r|..]
    ensures r == [] || !IsWhiteSpace(r[0])
    ensures forall i :: 0 <= i < |s| - |r| ==> IsWhiteSpace(s[i])
  {
    if s != [] && IsWhiteSpace(s[0]) then TrimStart(s[1..]) else s
  }

  /** `s.trimEnd()`: drops the longest white-space suffix. */
  function TrimEnd(s: string): (r: string)
    ensures |r| <= |s| && r == s[..|r|]
    ensures r == [] || !IsWhiteSpace(r[|r| - 1])
    ensures forall i :: |r| <= i < |s| ==> IsWhiteSpace(s[i])
  {
    if s != [] && IsWhiteSpace(s[|s| - 1]) then TrimEnd(s[..|s| - 1]) else s
  }

  /** `s.trim()`. */
  function Trim(s: string): (r: string)
    ensures r == [] <==> IsBlank(s)
    ensures r != [] ==> !IsWhiteSpace(r[0]) && !IsWhiteSpace(r[|r| - 1])
  {
    TrimEnd(TrimStart(s))
  }

  /** `trim` keeps one run of `s` and drops only white space before and after it. */
  lemma TrimCutsRun(s: string)
    ensures var r := Trim(s);
      exists k :: && OccursAt(s, r, k)
                  && (forall i :: 0 <= i < k ==> IsWhiteSpace(s[i]))
                  && (forall i :: k + |r| <= i < |s| ==> IsWhiteSpace(s[i]))
  {
    var t := TrimStart(s);
    var r := TrimEnd(t);
    var k := |s| - |t|;
    assert OccursAt(s, r, k);
    forall i | k + |r| <= i < |s| ensures IsWhiteSpace(s[i]) {
      assert s[i] == t[i - k];
    }
    assert Trim(s) == r;
    assert && OccursAt(s, r, k)
           && (forall i :: 0 <= i < k ==> IsWhiteSpace(s[i]))
           && (forall i :: k + |r| <= i < |s| ==> IsWhiteSpace(s[i]));
  }

  /** A string with no white space at either end is its own trim. */
  lemma TrimNoEnds(s: string)
    requires s != [] ==> !IsWhiteSpace(s[0]) && !IsWhiteSpace(s[|s| - 1])
    ensures Trim(s) == s
  {
    assert TrimStart(s) == s;
    assert TrimEnd(s) == s;
  }

  /** Trimming twice is trimming once. */
  lemma {:induction false} TrimIdempotent(s: string)
    ensures Trim(Trim(s)) == Trim(s)
  {
    var r := Trim(s);
    if r != [] {
      assert TrimStart(r) == r;
      assert TrimEnd(r) == r;
    }
  }

  /** `c.toLowerCase()` for an ASCII letter; other characters are left alone. */
  function LowerChar(c: char): char {
    if 'A' <= c <= 'Z' then (c as int + 32) as char else c
  }

  /** `s.toLowerCase()`, restricted to ASCII letters. */
  function Lower(s: string): (r: string)
    ensures |r| == |s|
    ensures forall i :: 0 <= i < |s| ==> r[i] == LowerChar(s[i])
  {
    if s == [] then [] else [LowerChar(s[0])] + Lower(s[1..])
  }

  /** Lower-casing is idempotent, so the search filter ignores the case of the term. */
  lemma LowerIdempotent(s: string)
    ensures Lower(Lower(s)) == Lower(s)
  {
    assert forall i :: 0 <= i < |s| ==> LowerChar(LowerChar(s[i])) == LowerChar(s[i]);
  }

  /** `t` occurs in `s` starting at index `k`. */
  predicate OccursAt(s: string, t: string, k: int) {
    0 <= k && k + |t| <= |s| && s[k..k + |t|] == t
  }

  /** `s.includes(t)`, trying each start position in turn. */
  function Contains(s: string, t: string): (found: bool)
    ensures found <==> exists k :: OccursAt(s, t, k)
  {
    if |t| <= |s| && s[..|t|] == t then
      assert OccursAt(s, t, 0);
      true
    else if s == [] then
      false
    else
      var found := Contains(s[1..], t);
      assert found ==> exists k :: OccursAt(s, t, k) by {
        if found {
          var k :| OccursAt(s[1..], t, k);
          assert OccursAt(s, t, k + 1);
        }
      }
      assert (exists k :: OccursAt(s, t, k)) ==> found by {
        if k :| OccursAt(s, t, k) {
          assert k != 0;
          assert s[1..][k - 1..k - 1 + |t|] == s[k..k + |t|];
          assert OccursAt(s[1..], t, k - 1);
        }
      }
      found
  }

  /** Every string includes the empty string. */
  lemma ContainsEmpty(s: string)
    ensures Contains(s, "")
  {
    assert OccursAt(s, "", 0);
  }

  /**
   * `a <= b` in the order JavaScript's `Array.prototype.sort` uses without a
   * comparator: code unit by code unit, a proper prefix first.
   */
  predicate CodeUnitLe(a: string, b: string) {
    a == [] || (b != [] && (a[0] < b[0] || (a[0] == b[0] && CodeUnitLe(a[1..], b[1..]))))
  }

  lemma {:induction false} CodeUnitLeTotal(a: string, b: string)
    ensures CodeUnitLe(a, b) || CodeUnitLe(b, a)
  {
    if a != [] && b != [] && a[0] == b[0] {
      CodeUnitLeTotal(a[1..], b[1..]);
    }
  }

  lemma {:induction false} CodeUnitLeTransitive(a: string, b: string, c: string)
    requires CodeUnitLe(a, b) && CodeUnitLe(b, c)
    ensures CodeUnitLe(a, c)
  {
    if a != [] && a[0] == b[0] && b[0] == c[0] {
      CodeUnitLeTransitive(a[1..], b[1..], c[1..]);
    }
  }

  lemma {:induction false} CodeUnitLeAntisymmetric(a: string, b: string)
    requires CodeUnitLe(a, b) && CodeUnitLe(b, a)
    ensures a == b
  {
    if a != [] && b != [] {
      CodeUnitLeAntisymmetric(a[1..], b[1..]);
      assert a == [a[0]] + a[1..] && b == [b[0]] + b[1..];
    }
  }
}
