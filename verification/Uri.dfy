/** The wildcard patterns of csi_http/utils/uri_pattern.cpp and the language each one stands for. */
module UriPatterns {
  import opened Base

  type Segments = seq<Octets>

  // ---- boost::split at "/"

  predicate HasSlash(s: Octets) {
    '/' in s
  }

  /** The octets before the first slash. */
  function First(s: Octets): Octets {
    s[..IndexOf(s, '/')]
  }

  /** The octets behind the first slash. */
  function Rest(s: Octets): (r: Octets)
    requires HasSlash(s)
    ensures |r| < |s|
  {
    s[SlashAt(s) + 1..]
  }

  function SlashAt(s: Octets): (i: nat)
    requires HasSlash(s)
    ensures i < |s| && i == IndexOf(s, '/')
  {
    var i := IndexOf(s, '/');
    assert s[..i] + s[i..] == s;
    i
  }

  /** Every token between slashes, empty ones too; the empty string is one empty token. */
  function Split(s: Octets): (r: Segments)
    ensures r != []
    decreases |s|
  {
    if HasSlash(s) then [First(s)] + Split(Rest(s)) else [s]
  }

  function Join(parts: Segments): Octets
    requires parts != []
  {
    if |parts| == 1 then parts[0] else parts[0] + ['/'] + Join(parts[1..])
  }

  predicate SlashFree(parts: Segments) {
    forall p :: p in parts ==> !HasSlash(p)
  }

  lemma {:induction false} SplitIsSlashFree(s: Octets)
    ensures SlashFree(Split(s))
    decreases |s|
  {
    FirstAndRest(s);
    if HasSlash(s) {
      SplitIsSlashFree(Rest(s));
    }
  }

  lemma {:induction false} JoinOfSplit(s: Octets)
    ensures Join(Split(s)) == s
    decreases |s|
  {
    FirstAndRest(s);
    if HasSlash(s) {
      JoinOfSplit(Rest(s));
      assert Split(s)[1..] == Split(Rest(s));
    }
  }

  lemma FirstAndRest(s: Octets)
    ensures !HasSlash(First(s))
    ensures !HasSlash(s) ==> First(s) == s
    ensures HasSlash(s) ==> s == First(s) + ['/'] + Rest(s)
  {
    var i := IndexOf(s, '/');
    if i == |s| {
      assert s[..i] == s;
    }
  }

  lemma FirstOfPrefix(a: Octets, t: Octets)
    requires !HasSlash(a)
    ensures var s := a + ['/'] + t; HasSlash(s) && First(s) == a && Rest(s) == t
  {
    var s := a + ['/'] + t;
    IndexOfFirst(a, '/', t);
    assert s[|a|] == '/';
  }

  lemma SplitCons(a: Octets, t: Octets)
    requires !HasSlash(a)
    ensures Split(a + ['/'] + t) == [a] + Split(t)
  {
    FirstOfPrefix(a, t);
  }

  lemma {:induction false} SplitOfJoin(parts: Segments)
    requires parts != [] && SlashFree(parts)
    ensures Split(Join(parts)) == parts
  {
    assert parts[0] in parts;
    if |parts| > 1 {
      var more := parts[1..];
      assert forall p :: p in more ==> p in parts;
      SplitOfJoin(more);
      SplitCons(parts[0], Join(more));
      assert [parts[0]] + more == parts;
    }
  }

  // ---- patterns

  datatype Pattern = Pattern(parts: Segments, catchAll: bool)

  function Compile(text: Octets): Pattern {
    var parts := Split(text);
    if parts[|parts| - 1] == "#" then Pattern(parts[..|parts| - 1], true) else Pattern(parts, false)
  }

  predicate SegmentMatches(p: Octets, s: Octets) {
    p == "+" || p == s
  }

  predicate Matches(p: Pattern, parts: Segments) {
    && (if p.catchAll then |p.parts| < |parts| else |p.parts| == |parts|)
    && AllMatch(p.parts, parts)
  }

  predicate AllMatch(ps: Segments, parts: Segments)
    requires |ps| <= |parts|
  {
    forall i :: 0 <= i < |ps| ==> SegmentMatches(ps[i], parts[i])
  }

  class UriPattern {
    const parts: Segments
    const catchAll: bool

    ghost function View(): Pattern {
      Pattern(parts, catchAll)
    }

    constructor (text: Octets)
      ensures View() == Compile(text)
    {
      var split := Split(text);
      var hash := false;
      if split[|split| - 1] == "#" {
        split := split[..|split| - 1];
        hash := true;
      }
      parts := split;
      catchAll := hash;
    }

    method Match(uri: Segments) returns (matched: bool)
      ensures matched <==> Matches(View(), uri)
    {
      if |parts| > |uri| {
        return false;
      }
      if !catchAll && |parts| != |uri| {
        return false;
      }
      if catchAll && |parts| >= |uri| {
        return false;
      }
      var n := |parts|;
      var i := 0;
      while i < n
        invariant 0 <= i <= n
        invariant forall k :: 0 <= k < i ==> SegmentMatches(parts[k], uri[k])
      {
        if parts[i] != "+" && parts[i] != uri[i] {
          return false;
        }
        i := i + 1;
      }
      return true;
    }
  }

  // ---- the language of a pattern, read off its text

  /**
   * "+" stands for one slash-free segment, a final "#" for one or more segments,
   * any other segment (a "#" that is not final too) for itself.
   */
  predicate InLanguage(pattern: Octets, url: Octets)
    decreases |pattern|
  {
    if pattern == "#" then true
    else
      && (First(pattern) == "+" || First(pattern) == First(url))
      && (HasSlash(pattern) <==> HasSlash(url))
      && (HasSlash(pattern) ==> InLanguage(Rest(pattern), Rest(url)))
  }

  lemma AllMatchCons(a: Octets, ps: Segments, x: Octets, xs: Segments)
    requires |ps| <= |xs|
    ensures AllMatch([a] + ps, [x] + xs) <==> SegmentMatches(a, x) && AllMatch(ps, xs)
  {
    var (qs, us) := ([a] + ps, [x] + xs);
    if AllMatch(qs, us) {
      assert SegmentMatches(qs[0], us[0]);
      forall i | 0 <= i < |ps|
        ensures SegmentMatches(ps[i], xs[i])
      {
        assert SegmentMatches(qs[i + 1], us[i + 1]);
      }
    }
    if SegmentMatches(a, x) && AllMatch(ps, xs) {
      forall i | 0 <= i < |qs|
        ensures SegmentMatches(qs[i], us[i])
      {
        if i > 0 {
          assert SegmentMatches(ps[i - 1], xs[i - 1]);
        }
      }
    }
  }

  lemma MatchesCons(a: Octets, p: Pattern, x: Octets, xs: Segments)
    ensures Matches(Pattern([a] + p.parts, p.catchAll), [x] + xs) <==> SegmentMatches(a, x) && Matches(p, xs)
  {
    if |p.parts| <= |xs| {
      AllMatchCons(a, p.parts, x, xs);
    }
  }

  lemma CompileCons(text: Octets)
    requires HasSlash(text)
    ensures Compile(text) == Pattern([First(text)] + Compile(Rest(text)).parts, Compile(Rest(text)).catchAll)
  {
    var more := Split(Rest(text));
    assert Split(text) == [First(text)] + more;
    assert ([First(text)] + more)[..|more|] == [First(text)] + more[..|more| - 1];
  }

  /** The compiled loop-and-length test decides membership of the URL text. */
  lemma {:induction false} MatchDecidesLanguage(text: Octets, url: Octets)
    ensures Matches(Compile(text), Split(url)) <==> InLanguage(text, url)
    decreases |text|
  {
    FirstAndRest(text);
    FirstAndRest(url);
    if HasSlash(text) {
      CompileCons(text);
      if HasSlash(url) {
        MatchDecidesLanguage(Rest(text), Rest(url));
        MatchesCons(First(text), Compile(Rest(text)), First(url), Split(Rest(url)));
      } else {
        // one segment cannot match a pattern of two or more
        assert |Split(url)| == 1;
        CompiledLength(Rest(text));
      }
    } else if text != "#" {
      assert Compile(text) == Pattern([text], false);
      if HasSlash(url) {
        assert |Split(url)| > 1;
      }
    }
  }

  lemma CompiledLength(text: Octets)
    ensures var p := Compile(text); |p.parts| + (if p.catchAll then 1 else 0) == |Split(text)|
  {
  }

  // ---- containment

  ghost predicate Contains(p: Octets, q: Octets) {
    forall url :: InLanguage(q, url) ==> InLanguage(p, url)
  }

  /** A segment of `n` ordinary letters. */
  function Letters(n: nat): (s: Octets)
    ensures |s| == n && !HasSlash(s)
  {
    seq(n, _ => 'x')
  }

  function TotalLength(parts: Segments): nat {
    if parts == [] then 0 else |parts[0]| + TotalLength(parts[1..])
  }

  lemma {:induction false} LongerThanAll(parts: Segments)
    ensures forall p :: p in parts ==> |p| <= TotalLength(parts)
  {
    if parts != [] {
      LongerThanAll(parts[1..]);
      assert parts == [parts[0]] + parts[1..];
    }
  }

  /** The parts of q with every wildcard replaced by `letters`, and `n` more of them behind. */
  function Instance(q: Pattern, letters: Octets, n: nat): (r: Segments)
    ensures |r| == |q.parts| + n
    ensures forall i :: 0 <= i < |r| ==>
      r[i] == if i < |q.parts| && q.parts[i] != "+" then q.parts[i] else letters
  {
    seq(|q.parts| + n, i requires 0 <= i => if i < |q.parts| && q.parts[i] != "+" then q.parts[i] else letters)
  }

  lemma InstanceIsInLanguage(q: Octets, letters: Octets, n: nat)
    requires !HasSlash(letters) && if Compile(q).catchAll then n > 0 else n == 0
    ensures var parts := Instance(Compile(q), letters, n);
      parts != [] && Split(Join(parts)) == parts && InLanguage(q, Join(parts))
  {
    var c := Compile(q);
    var parts := Instance(c, letters, n);
    SplitIsSlashFree(q);
    CompiledLength(q);
    assert forall p :: p in c.parts ==> p in Split(q);
    forall s | s in parts
      ensures !HasSlash(s)
    {
      var i :| 0 <= i < |parts| && parts[i] == s;
      assert s == letters || s in c.parts;
    }
    SplitOfJoin(parts);
    assert AllMatch(c.parts, parts);
    MatchDecidesLanguage(q, Join(parts));
  }

  /** A pattern holding an instance of q matches q's text, when the letters are too long to be its own. */
  lemma InstanceMatched(p: Pattern, q: Octets, letters: Octets, n: nat)
    requires |letters| > TotalLength(p.parts) + 1 && n <= |Split(q)| - |Compile(q).parts|
    requires Matches(p, Instance(Compile(q), letters, n)) && |p.parts| <= |Split(q)|
    ensures AllMatch(p.parts, Split(q))
  {
    var u := Instance(Compile(q), letters, n);
    LongerThanAll(p.parts);
    forall i | 0 <= i < |p.parts|
      ensures SegmentMatches(p.parts[i], Split(q)[i])
    {
      assert SegmentMatches(p.parts[i], u[i]);
      assert p.parts[i] in p.parts;
    }
  }

  /** If p holds every URL of q, then p matches the segments of q's own text. */
  lemma ContainmentIsMatched(p: Octets, q: Octets)
    requires Contains(p, q)
    ensures Matches(Compile(p), Split(q))
    ensures Compile(q).catchAll ==> Compile(p).catchAll
  {
    var (cp, cq) := (Compile(p), Compile(q));
    var letters := Letters(TotalLength(cp.parts) + 2);
    var n := if cq.catchAll then 1 else 0;
    CompiledLength(q);
    InstanceHeld(p, q, letters, n);
    InstanceMatched(cp, q, letters, n);
    if cq.catchAll {
      InstanceHeld(p, q, letters, 2);
    }
  }

  lemma InstanceHeld(p: Octets, q: Octets, letters: Octets, n: nat)
    requires Contains(p, q) && !HasSlash(letters) && if Compile(q).catchAll then n > 0 else n == 0
    ensures Matches(Compile(p), Instance(Compile(q), letters, n))
  {
    InstanceIsInLanguage(q, letters, n);
    var u := Instance(Compile(q), letters, n);
    assert InLanguage(p, Join(u));
    MatchDecidesLanguage(p, Join(u));
  }

  lemma MatchedIsContainment(p: Octets, q: Octets)
    requires Matches(Compile(p), Split(q))
    requires Compile(q).catchAll ==> Compile(p).catchAll
    ensures Contains(p, q)
  {
    var (cp, cq) := (Compile(p), Compile(q));
    CompiledLength(q);
    forall url | InLanguage(q, url)
      ensures InLanguage(p, url)
    {
      MatchDecidesLanguage(q, url);
      MatchDecidesLanguage(p, url);
      forall i | 0 <= i < |cp.parts|
        ensures SegmentMatches(cp.parts[i], Split(url)[i])
      {
        assert SegmentMatches(cp.parts[i], Split(q)[i]);
        assert SegmentMatches(cq.parts[i], Split(url)[i]);
      }
    }
  }

  /** Matching q's text against p decides containment, once a final "#" of q is answered by one of p. */
  lemma ContainmentExact(p: Octets, q: Octets)
    ensures Contains(p, q) <==>
            Matches(Compile(p), Split(q)) && (Compile(q).catchAll ==> Compile(p).catchAll)
  {
    if Contains(p, q) {
      ContainmentIsMatched(p, q);
    }
    if Matches(Compile(p), Split(q)) && (Compile(q).catchAll ==> Compile(p).catchAll) {
      MatchedIsContainment(p, q);
    }
  }

  /** The side condition is needed: "+" matches the text "#" without holding its URLs. */
  lemma MatchedButNotContained()
    ensures Matches(Compile("+"), Split("#")) && !Contains("+", "#")
  {
    ContainmentExact("+", "#");
    assert Split("#") == ["#"] && Split("+") == ["+"];
  }
}
