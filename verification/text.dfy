/**
 The Python `str` primitives the bot relies on: `strip()`, `upper()`,
 `lower()` and `split(sep)`. The bot calls neither `find` nor `join`: `Find`
 and `Join` exist only to specify `split`.

 Whitespace is Python's own `str.isspace` set. Case mapping is restricted to
 ASCII letters; every other character maps to itself.
 */
module Text {
  import opened Optional

  /** Python's whitespace characters (those `str.strip()` removes). */
  predicate IsSpace(c: char) {
    || ('\U{0009}' <= c <= '\U{000D}')
    || ('\U{001C}' <= c <= '\U{0020}')
    || c == '\U{0085}' || c == '\U{00A0}' || c == '\U{1680}'
    || ('\U{2000}' <= c <= '\U{200A}')
    || c == '\U{2028}' || c == '\U{2029}' || c == '\U{202F}'
    || c == '\U{205F}' || c == '\U{3000}'
  }

  predicate AllSpace(s: string) {
    forall k :: 0 <= k < |s| ==> IsSpace(s[k])
  }

  /** Neither end of `s` is whitespace: the shape of every `strip()` result. */
  predicate Trimmed(s: string) {
    |s| == 0 || (!IsSpace(s[0]) && !IsSpace(s[|s| - 1]))
  }

  /** Length of the whitespace run at the start of `s`. */
  function LeadingSpaces(s: string): (n: nat)
    ensures n <= |s|
    ensures AllSpace(s[..n])
    ensures n < |s| ==> !IsSpace(s[n])
  {
    if |s| == 0 || !IsSpace(s[0]) then 0
    else
      var m := LeadingSpaces(s[1..]);
      assert s[..m + 1] == [s[0]] + s[1..][..m];
      m + 1
  }

  /** Length of the whitespace run at the end of `s`. */
  function TrailingSpaces(s: string): (n: nat)
    ensures n <= |s|
    ensures AllSpace(s[|s| - n..])
    ensures n < |s| ==> !IsSpace(s[|s| - 1 - n])
  {
    if |s| == 0 || !IsSpace(s[|s| - 1]) then 0
    else
      var p := s[..|s| - 1];
      var m := TrailingSpaces(p);
      assert s[|s| - (m + 1)..] == p[|p| - m..] + [s[|s| - 1]];
      m + 1
  }

  /** `s.strip()`. */
  function Strip(s: string): (r: string)
    ensures Trimmed(r)
  {
    var i := LeadingSpaces(s);
    var t := s[i..];
    var n := TrailingSpaces(t);
    var r := t[..|t| - n];
    assert Trimmed(r) by {
      if |r| > 0 {
        assert r[0] == s[i];
        assert r[|r| - 1] == t[|t| - 1 - n];
      }
    }
    r
  }

  lemma SliceThree(s: string, i: nat, j: nat)
    requires i <= j <= |s|
    ensures s == s[..i] + s[i..j] + s[j..]
  {
  }

  /** `strip()` keeps a slice of its input: whitespace lies before and after it. */
  lemma StripSlice(s: string) returns (i: nat, j: nat)
    ensures i <= j <= |s| && Strip(s) == s[i..j]
    ensures AllSpace(s[..i]) && AllSpace(s[j..])
  {
    i := LeadingSpaces(s);
    var t := s[i..];
    var n := TrailingSpaces(t);
    var k := |t| - n;
    j := i + k;
    assert Strip(s) == t[..k];
    assert t[..k] == s[i..j];
    assert t[k..] == s[j..];
  }

  /** `s` is the whitespace `strip()` removes in front, then the result, then
      the whitespace it removes behind. */
  lemma StripDecompose(s: string) returns (a: string, b: string)
    ensures s == a + Strip(s) + b
    ensures AllSpace(a) && AllSpace(b)
  {
    var i, j := StripSlice(s);
    SliceThree(s, i, j);
    a, b := s[..i], s[j..];
  }

  /** Whitespace in front of `x` adds exactly its length to the leading run. */
  lemma {:induction false} LeadingAfterSpaces(a: string, x: string)
    requires AllSpace(a)
    ensures LeadingSpaces(a + x) == |a| + LeadingSpaces(x)
    decreases |a|
  {
    if |a| == 0 {
      assert a + x == x;
    } else {
      assert (a + x)[1..] == a[1..] + x;
      LeadingAfterSpaces(a[1..], x);
    }
  }

  /** Whitespace behind `x` adds exactly its length to the trailing run. */
  lemma {:induction false} TrailingBeforeSpaces(x: string, b: string)
    requires AllSpace(b)
    ensures TrailingSpaces(x + b) == |b| + TrailingSpaces(x)
    decreases |b|
  {
    if |b| == 0 {
      assert x + b == x;
    } else {
      assert (x + b)[..|x + b| - 1] == x + b[..|b| - 1];
      TrailingBeforeSpaces(x, b[..|b| - 1]);
    }
  }

  /** The decomposition promised by `Strip` is the only one: whitespace
      around a trimmed core strips to exactly that core. */
  lemma {:induction false} StripUnique(a: string, r: string, b: string)
    requires AllSpace(a) && AllSpace(b) && Trimmed(r)
    ensures Strip(a + r + b) == r
  {
    var s := a + r + b;
    assert s == a + (r + b);
    LeadingAfterSpaces(a, r + b);
    if |r| == 0 {
      assert r + b == b;
      LeadingAfterSpaces(b, []);
      assert b + [] == b;
    } else {
      assert (r + b)[0] == r[0];
      assert s[|a|..] == r + b;
      TrailingBeforeSpaces(r, b);
    }
  }

  /** A string with no whitespace at either end is its own strip. */
  lemma StripOfTrimmed(s: string)
    requires Trimmed(s)
    ensures Strip(s) == s
  {
    StripUnique([], s, []);
    assert [] + s + [] == s;
  }

  /** `strip()` applied twice changes nothing. */
  lemma {:induction false} StripIdempotent(s: string)
    ensures Strip(Strip(s)) == Strip(s)
  {
    StripUnique([], Strip(s), []);
    assert [] + Strip(s) + [] == Strip(s);
  }

  function UpperChar(c: char): char {
    if 'a' <= c <= 'z' then (c as int - 32) as char else c
  }

  function LowerChar(c: char): char {
    if 'A' <= c <= 'Z' then (c as int + 32) as char else c
  }

  /** `s.upper()` on ASCII letters. */
  function Upper(s: string): (r: string)
    ensures |r| == |s|
    ensures forall k :: 0 <= k < |s| ==> r[k] == UpperChar(s[k])
  {
    if |s| == 0 then [] else [UpperChar(s[0])] + Upper(s[1..])
  }

  /** `s.lower()` on ASCII letters. */
  function Lower(s: string): (r: string)
    ensures |r| == |s|
    ensures forall k :: 0 <= k < |s| ==> r[k] == LowerChar(s[k])
  {
    if |s| == 0 then [] else [LowerChar(s[0])] + Lower(s[1..])
  }

  predicate NoLowerLetters(s: string) {
    forall k :: 0 <= k < |s| ==> !('a' <= s[k] <= 'z')
  }

  predicate NoUpperLetters(s: string) {
    forall k :: 0 <= k < |s| ==> !('A' <= s[k] <= 'Z')
  }

  /** A string without lower-case ASCII letters is its own upper-casing. */
  lemma UpperFixes(s: string)
    requires NoLowerLetters(s)
    ensures Upper(s) == s
  {
  }

  /** A string without upper-case ASCII letters is its own lower-casing. */
  lemma LowerFixes(s: string)
    requires NoUpperLetters(s)
    ensures Lower(s) == s
  {
  }

  lemma {:induction false} UpperConcat(a: string, b: string)
    ensures Upper(a + b) == Upper(a) + Upper(b)
    decreases |a|
  {
    if |a| == 0 {
      assert a + b == b;
    } else {
      assert (a + b)[0] == a[0];
      assert (a + b)[1..] == a[1..] + b;
      UpperConcat(a[1..], b);
    }
  }

  lemma {:induction false} UpperAllSpace(a: string)
    requires AllSpace(a)
    ensures AllSpace(Upper(a))
  {
    var u := Upper(a);
    forall k | 0 <= k < |u| ensures IsSpace(u[k]) {
      assert IsSpace(a[k]);
    }
  }

  lemma {:induction false} UpperTrimmed(r: string)
    requires Trimmed(r)
    ensures Trimmed(Upper(r))
  {
    if |r| > 0 {
      assert !IsSpace(r[0]) && !IsSpace(r[|r| - 1]);
    }
  }

  lemma {:induction false} LowerTrimmed(r: string)
    requires Trimmed(r)
    ensures Trimmed(Lower(r))
  {
    if |r| > 0 {
      assert !IsSpace(r[0]) && !IsSpace(r[|r| - 1]);
    }
  }

  /** Upper-casing commutes with `strip()`: it neither creates nor removes
      whitespace. */
  lemma {:induction false} StripUpper(s: string)
    ensures Strip(Upper(s)) == Upper(Strip(s))
  {
    var r := Strip(s);
    var a, b := StripDecompose(s);
    UpperConcat(a, r);
    UpperConcat(a + r, b);
    UpperAllSpace(a);
    UpperAllSpace(b);
    UpperTrimmed(r);
    StripUnique(Upper(a), Upper(r), Upper(b));
  }

  /** The normal form under which quiz answers are compared: `s.strip().upper()`. */
  function Normalize(s: string): (r: string)
    ensures Trimmed(r) && NoLowerLetters(r)
  {
    UpperTrimmed(Strip(s));
    Upper(Strip(s))
  }

  /** The normal forms are exactly the trimmed strings without lower-case
      ASCII letters. */
  lemma NormalFormIff(s: string)
    ensures Normalize(s) == s <==> Trimmed(s) && NoLowerLetters(s)
  {
    if Trimmed(s) && NoLowerLetters(s) {
      StripOfTrimmed(s);
      UpperFixes(s);
    }
  }

  /** Upper-casing twice is upper-casing once. */
  lemma {:induction false} UpperIdempotent(s: string)
    ensures Upper(Upper(s)) == Upper(s)
  {
    var u := Upper(s);
    forall k | 0 <= k < |u| ensures Upper(u)[k] == u[k] {
      var c := s[k];
      assert UpperChar(UpperChar(c)) == UpperChar(c);
    }
  }

  /** Normalizing a normalized answer leaves it unchanged. */
  lemma {:induction false} NormalizeIdempotent(s: string)
    ensures Normalize(Normalize(s)) == Normalize(s)
  {
    var r := Strip(s);
    StripUpper(r);
    StripIdempotent(s);
    assert Strip(Upper(r)) == Upper(r);
    UpperIdempotent(r);
  }

  /** `i` is a position where `sep` occurs in `s`. */
  predicate OccursAt(s: string, sep: string, i: int) {
    0 <= i && i + |sep| <= |s| && s[i..i + |sep|] == sep
  }

  predicate Contains(s: string, sep: string) {
    exists i :: 0 <= i <= |s| && OccursAt(s, sep, i)
  }

  /** `i` is the leftmost occurrence of `sep` in `s`. */
  predicate FirstAt(s: string, sep: string, i: int) {
    OccursAt(s, sep, i) && forall j :: 0 <= j < i ==> !OccursAt(s, sep, j)
  }

  /** `s.find(sep, from)`: the leftmost occurrence of `sep` at or after `from`. */
  function FindFrom(s: string, sep: string, from: nat): (r: Option<nat>)
    requires from <= |s|
    ensures r.Some? ==> from <= r.value && OccursAt(s, sep, r.value)
    ensures r.Some? ==> forall j :: from <= j < r.value ==> !OccursAt(s, sep, j)
    ensures r.None? ==> forall j :: from <= j ==> !OccursAt(s, sep, j)
    decreases |s| - from
  {
    if from + |sep| > |s| then None
    else if s[from..from + |sep|] == sep then Some(from)
    else FindFrom(s, sep, from + 1)
  }

  /** `s.find(sep)`, with `None` for Python's `-1`. */
  function Find(s: string, sep: string): (r: Option<nat>)
    ensures r.Some? <==> Contains(s, sep)
    ensures r.Some? ==> FirstAt(s, sep, r.value)
  {
    FindFrom(s, sep, 0)
  }

  /** An occurrence inside a prefix of `s` is an occurrence in `s`. */
  lemma {:induction false} OccursInPrefix(s: string, sep: string, n: nat, j: int)
    requires n <= |s| && OccursAt(s[..n], sep, j)
    ensures OccursAt(s, sep, j) && j + |sep| <= n
  {
    assert s[..n][j..j + |sep|] == s[j..j + |sep|];
  }

  /** `sep.join(parts)`. */
  function Join(parts: seq<string>, sep: string): string {
    if |parts| == 0 then ""
    else if |parts| == 1 then parts[0]
    else parts[0] + sep + Join(parts[1..], sep)
  }

  /** `s.split(sep)` for a non-empty separator: the pieces between the
      non-overlapping occurrences of `sep`, scanned left to right. */
  function Split(s: string, sep: string): (parts: seq<string>)
    requires |sep| > 0
    ensures |parts| >= 1
    ensures Join(parts, sep) == s
    ensures forall k :: 0 <= k < |parts| ==> !Contains(parts[k], sep)
    decreases |s|
  {
    match Find(s, sep)
    case None => [s]
    case Some(i) =>
      var head := s[..i];
      assert !Contains(head, sep) by {
        forall j | OccursAt(head, sep, j) ensures false {
          OccursInPrefix(s, sep, i, j);
        }
      }
      assert s == head + sep + s[i + |sep|..];
      [head] + Split(s[i + |sep|..], sep)
  }

  /** The first piece of a split is everything before the first separator,
      and there is a second piece exactly when the separator occurs. */
  lemma {:induction false} SplitHead(s: string, sep: string)
    requires |sep| > 0
    ensures |Split(s, sep)| > 1 <==> Contains(s, sep)
    ensures !Contains(s, sep) ==> Split(s, sep) == [s]
    ensures forall i :: FirstAt(s, sep, i) ==> Split(s, sep)[0] == s[..i]
    ensures forall i :: FirstAt(s, sep, i) ==>
      Split(s, sep)[1..] == Split(s[i + |sep|..], sep)
  {
    match Find(s, sep)
    case None =>
    case Some(i) =>
      forall i' | FirstAt(s, sep, i') ensures i' == i { }
  }
}
