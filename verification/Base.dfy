/** Shared vocabulary: optional values, octet strings, and ASCII case folding. */
module Base {
  datatype Option<+T> = None | Some(value: T)

  /** One character stands for one octet. */
  type Octets = seq<char>

  const CRLF: Octets := ['\r', '\n']

  function LowerChar(c: char): char {
    if 'A' <= c <= 'Z' then (c as int + 32) as char else c
  }

  /** Case-insensitive comparison, as field names are compared in section 3.2 of RFC 7230. */
  predicate SameName(a: Octets, b: Octets) {
    |a| == |b| && (a == [] || (LowerChar(a[0]) == LowerChar(b[0]) && SameName(a[1..], b[1..])))
  }

  /** `upper` and `lower` are the two cases of one ASCII letter. */
  predicate IsCasePair(upper: char, lower: char) {
    'A' <= upper <= 'Z' && 'a' <= lower <= 'z' && upper as int - 'A' as int == lower as int - 'a' as int
  }

  /** Names are the same exactly when they differ in the case of letters at most. */
  lemma {:induction false} SameNameExact(a: Octets, b: Octets)
    ensures SameName(a, b) <==>
      |a| == |b| && forall i :: 0 <= i < |a| ==> a[i] == b[i] || IsCasePair(a[i], b[i]) || IsCasePair(b[i], a[i])
  {
    if |a| == |b| && a != [] {
      SameNameExact(a[1..], b[1..]);
      assert forall i :: 0 < i < |a| ==> a[i] == a[1..][i - 1] && b[i] == b[1..][i - 1];
      if SameName(a, b) {
        assert forall i :: 0 < i < |a| ==> a[i] == b[i] || IsCasePair(a[i], b[i]) || IsCasePair(b[i], a[i]);
      } else if LowerChar(a[0]) == LowerChar(b[0]) {
        var i :| 0 <= i < |a[1..]| && !(a[1..][i] == b[1..][i] || IsCasePair(a[1..][i], b[1..][i]) || IsCasePair(b[1..][i], a[1..][i]));
        assert a[i + 1] == a[1..][i] && b[i + 1] == b[1..][i];
      }
    }
  }

  lemma {:induction false} SameNameIsReflexive(a: Octets)
    ensures SameName(a, a)
  {
    if a != [] {
      SameNameIsReflexive(a[1..]);
    }
  }

  /** The first place of c in s, or the length of s. */
  function IndexOf(s: Octets, c: char): (i: nat)
    ensures i <= |s| && c !in s[..i] && (i < |s| ==> s[i] == c)
  {
    if s == [] || s[0] == c then 0 else 1 + IndexOf(s[1..], c)
  }

  lemma {:induction false} IndexOfFirst(s: Octets, c: char, t: Octets)
    requires c !in s
    ensures IndexOf(s + [c] + t, c) == |s|
  {
    if s != [] {
      assert forall d :: d in s[1..] ==> d in s;
      IndexOfFirst(s[1..], c, t);
      assert (s + [c] + t)[1..] == s[1..] + [c] + t;
      assert s[0] in s;
    }
  }
}
