/** String helpers with Python's semantics: `in` on strings, `str.rfind`,
    prefix slicing `s[:k]`, `str(n)` for a natural number and `sep.join`. */
module Text {

  /** `sub` occurs in `s` starting at index `i`. */
  ghost predicate OccursAt(s: string, sub: string, i: int) {
    0 <= i && i + |sub| <= |s| && s[i..i + |sub|] == sub
  }

  /** `sub` is a substring of `s`. */
  ghost predicate Occurs(sub: string, s: string) {
    exists i :: OccursAt(s, sub, i)
  }

  lemma OccursPrefix(sub: string, s: string)
    requires sub <= s
    ensures Occurs(sub, s)
  {
    assert OccursAt(s, sub, 0);
  }

  lemma OccursLeft(sub: string, a: string, b: string)
    requires Occurs(sub, a)
    ensures Occurs(sub, a + b)
  {
    var i :| OccursAt(a, sub, i);
    assert (a + b)[i..i + |sub|] == a[i..i + |sub|];
    assert OccursAt(a + b, sub, i);
  }

  lemma OccursRight(sub: string, a: string, b: string)
    requires Occurs(sub, b)
    ensures Occurs(sub, a + b)
  {
    var i :| OccursAt(b, sub, i);
    assert (a + b)[|a| + i..|a| + i + |sub|] == b[i..i + |sub|];
    assert OccursAt(a + b, sub, |a| + i);
  }

  /** An occurrence in a non-empty string is either at its head or in its tail. */
  lemma {:induction false} OccursUnfold(sub: string, s: string)
    requires |s| > 0
    ensures Occurs(sub, s) <==> sub <= s || Occurs(sub, s[1..])
  {
    if Occurs(sub, s) {
      var i :| OccursAt(s, sub, i);
      if i > 0 {
        assert s[1..][i - 1..i - 1 + |sub|] == s[i..i + |sub|];
        assert OccursAt(s[1..], sub, i - 1);
      }
    }
    if sub <= s {
      OccursPrefix(sub, s);
    }
    if Occurs(sub, s[1..]) {
      var j :| OccursAt(s[1..], sub, j);
      assert s[j + 1..j + 1 + |sub|] == s[1..][j..j + |sub|];
      assert OccursAt(s, sub, j + 1);
    }
  }

  /** Python's `sub in s`. */
  function Contains(s: string, sub: string): (r: bool)
    ensures r <==> Occurs(sub, s)
    decreases |s|
  {
    if sub <= s then
      OccursPrefix(sub, s);
      true
    else if |s| == 0 then
      false
    else
      OccursUnfold(sub, s);
      Contains(s[1..], sub)
  }

  /** Python's `s.rfind(c)` for a one-character needle: the last index of `c`, or -1. */
  function RFind(s: string, c: char): (r: int)
    ensures -1 <= r < |s|
    ensures r == -1 <==> c !in s
    ensures r >= 0 ==> s[r] == c && c !in s[r + 1..]
  {
    if |s| == 0 then -1
    else if s[|s| - 1] == c then |s| - 1
    else
      assert s == s[..|s| - 1] + [s[|s| - 1]];
      RFind(s[..|s| - 1], c)
  }

  /** Python's prefix slice `s[:k]`, including its reading of a negative `k`
      as "all but the last -k characters". */
  function PyPrefix(s: string, k: int): (r: string)
    ensures r <= s
    ensures 0 <= k ==> |r| == if k <= |s| then k else |s|
    ensures k < 0 ==> |r| == if -k <= |s| then |s| + k else 0
  {
    if 0 <= k then (if k <= |s| then s[..k] else s)
    else (if -k <= |s| then s[..|s| + k] else [])
  }

  predicate IsDigit(c: char) {
    '0' <= c <= '9'
  }

  /** The number a string of decimal digits denotes. */
  function DecimalValue(s: string): nat
    requires forall i :: 0 <= i < |s| ==> IsDigit(s[i])
  {
    if |s| == 0 then 0
    else
      var d := s[|s| - 1] as int - '0' as int;
      assert IsDigit(s[|s| - 1]);
      DecimalValue(s[..|s| - 1]) * 10 + d
  }

  /** Python's `str(n)` for a natural number. */
  function DecimalString(n: nat): (r: string)
    ensures |r| >= 1
    ensures forall i :: 0 <= i < |r| ==> IsDigit(r[i])
    ensures DecimalValue(r) == n
    ensures r[0] == '0' ==> r == "0"
    decreases n
  {
    var last := ['0' + ((n % 10) as char)];
    if n < 10 then
      last
    else
      var r := DecimalString(n / 10) + last;
      assert r[..|r| - 1] == DecimalString(n / 10);
      r
  }

  /** Python's `sep.join(parts)`. */
  function Join(sep: string, parts: seq<string>): (r: string)
    ensures forall i :: 0 <= i < |parts| ==> Occurs(parts[i], r)
    ensures |parts| == 1 ==> r == parts[0]
  {
    if |parts| == 0 then ""
    else if |parts| == 1 then
      OccursPrefix(parts[0], parts[0]);
      parts[0]
    else
      var rest := Join(sep, parts[1..]);
      var r := parts[0] + (sep + rest);
      OccursPrefix(parts[0], parts[0]);
      OccursLeft(parts[0], parts[0], sep + rest);
      forall i | 1 <= i < |parts|
        ensures Occurs(parts[i], r)
      {
        assert parts[i] == parts[1..][i - 1];
        OccursRight(parts[i], sep, rest);
        OccursRight(parts[i], parts[0], sep + rest);
      }
      r
  }
}
