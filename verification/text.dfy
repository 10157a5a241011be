/** String primitives the dashboard relies on: lower-casing, the ordering of
    `localeCompare`, and the clamping rules of JavaScript's `substring`. */
module Text {

  function Min(a: int, b: int): int { if a <= b then a else b }

  function Max(a: int, b: int): int { if a <= b then b else a }

  predicate IsUpperAscii(c: char) { 'A' <= c <= 'Z' }

  /** Lower-cases one character; letters outside A-Z are left as they are. */
  function LowerChar(c: char): (r: char)
    ensures !IsUpperAscii(r)
    ensures IsUpperAscii(c) ==> r as int == c as int + 32
    ensures !IsUpperAscii(c) ==> r == c
  {
    if IsUpperAscii(c) then (c as int + 32) as char else c
  }

  /** `String.prototype.toLowerCase`, character by character. */
  function Lower(s: string): (r: string)
    ensures |r| == |s|
    ensures forall i :: 0 <= i < |r| ==> r[i] == LowerChar(s[i])
  {
    if |s| == 0 then [] else [LowerChar(s[0])] + Lower(s[1..])
  }

  /** Lexicographic three-way comparison by character code: the model of
      `localeCompare`, returning -1, 0 or 1. */
  function LexCmp(a: string, b: string): (r: int)
    ensures -1 <= r <= 1
    ensures |a| == 0 ==> r <= 0
  {
    if |a| == 0 && |b| == 0 then 0
    else if |a| == 0 then -1
    else if |b| == 0 then 1
    else if a[0] < b[0] then -1
    else if a[0] > b[0] then 1
    else LexCmp(a[1..], b[1..])
  }

  predicate IsPrefix(a: string, b: string) {
    |a| <= |b| && a == b[..|a|]
  }

  /** The textbook definition of lexicographic order, independent of LexCmp:
      `a` is a prefix of `b`, or at the first position where they differ `a`
      holds the smaller character. */
  predicate LexLe(a: string, b: string) {
    || IsPrefix(a, b)
    || exists k :: 0 <= k < |a| && k < |b| && a[..k] == b[..k] && a[k] < b[k]
  }

  /** Swapping the arguments negates the comparison. */
  lemma {:induction false} LexCmpAntisymmetric(a: string, b: string)
    ensures LexCmp(a, b) == -LexCmp(b, a)
  {
    if |a| > 0 && |b| > 0 && a[0] == b[0] {
      LexCmpAntisymmetric(a[1..], b[1..]);
    }
  }

  /** The comparison reports equality exactly for equal strings. */
  lemma {:induction false} LexCmpZero(a: string, b: string)
    ensures LexCmp(a, b) == 0 <==> a == b
  {
    if |a| > 0 && |b| > 0 && a[0] == b[0] {
      LexCmpZero(a[1..], b[1..]);
      assert a == [a[0]] + a[1..];
      assert b == [b[0]] + b[1..];
    }
  }

  /** "Not after" is transitive. */
  lemma {:induction false} LexCmpTransitive(a: string, b: string, c: string)
    requires LexCmp(a, b) <= 0 && LexCmp(b, c) <= 0
    ensures LexCmp(a, c) <= 0
  {
    if |a| > 0 && |b| > 0 && |c| > 0 && a[0] == b[0] && b[0] == c[0] {
      LexCmpTransitive(a[1..], b[1..], c[1..]);
    }
  }

  /** Stripping a common first character does not change the order. */
  lemma LexLeTail(a: string, b: string)
    requires |a| > 0 && |b| > 0 && a[0] == b[0]
    ensures LexLe(a, b) <==> LexLe(a[1..], b[1..])
  {
    var a', b' := a[1..], b[1..];
    assert a == [a[0]] + a';
    assert b == [b[0]] + b';
    if IsPrefix(a, b) {
      assert a' == b'[..|a'|];
    }
    if IsPrefix(a', b') {
      assert b[..|a|] == [b[0]] + b'[..|a'|];
    }
    if exists k :: 0 <= k < |a| && k < |b| && a[..k] == b[..k] && a[k] < b[k] {
      var k :| 0 <= k < |a| && k < |b| && a[..k] == b[..k] && a[k] < b[k];
      assert k != 0;
      assert a'[..k - 1] == a[1..k] == b[1..k] == b'[..k - 1];
      assert a'[k - 1] < b'[k - 1];
    }
    if exists k :: 0 <= k < |a'| && k < |b'| && a'[..k] == b'[..k] && a'[k] < b'[k] {
      var k :| 0 <= k < |a'| && k < |b'| && a'[..k] == b'[..k] && a'[k] < b'[k];
      assert a[..k + 1] == [a[0]] + a'[..k];
      assert b[..k + 1] == [b[0]] + b'[..k];
      assert a[k + 1] < b[k + 1];
    }
  }

  /** LexCmp agrees with the reference definition of lexicographic order. */
  lemma {:induction false} LexCmpIsLexLe(a: string, b: string)
    ensures LexCmp(a, b) <= 0 <==> LexLe(a, b)
  {
    if |a| == 0 {
      assert IsPrefix(a, b);
    } else if |b| == 0 {
      assert !IsPrefix(a, b);
    } else if a[0] < b[0] {
      assert a[..0] == b[..0];
    } else if a[0] > b[0] {
      if exists k :: 0 <= k < |a| && k < |b| && a[..k] == b[..k] && a[k] < b[k] {
        var k :| 0 <= k < |a| && k < |b| && a[..k] == b[..k] && a[k] < b[k];
        assert a[..k][0] == b[..k][0];
      }
    } else {
      LexCmpIsLexLe(a[1..], b[1..]);
      LexLeTail(a, b);
    }
  }

  /** Clamps an index into 0..n, as `substring` does with its arguments. */
  function Clamp(i: int, n: nat): (r: nat)
    ensures r <= n
    ensures 0 <= i <= n ==> r == i
  {
    if i < 0 then 0 else if i > n then n else i
  }

  /** `String.prototype.substring(start, end)`: both indices are clamped into
      the string and swapped when they arrive in the wrong order. */
  function Substring(s: string, start: int, end: int): (r: string)
    ensures |r| == Max(Clamp(start, |s|), Clamp(end, |s|)) - Min(Clamp(start, |s|), Clamp(end, |s|))
    ensures r == s[Min(Clamp(start, |s|), Clamp(end, |s|))..Max(Clamp(start, |s|), Clamp(end, |s|))]
  {
    var lo, hi := Clamp(start, |s|), Clamp(end, |s|);
    if lo <= hi then s[lo..hi] else s[hi..lo]
  }
}
