/** Strings as the service compares them: `str.strip`, the "has visible content" test, and
    Python's code-point order with the `sorted()` it induces on pairs of state names. */
module Text {

  /** The characters `str.strip` removes (Python's `str.isspace` set). */
  predicate IsSpace(c: char) {
    || '\t' <= c <= '\r' || '\U{1C}' <= c <= '\U{20}' || c == '\U{85}' || c == '\U{A0}'
    || c == '\U{1680}' || '\U{2000}' <= c <= '\U{200A}' || c == '\U{2028}' || c == '\U{2029}'
    || c == '\U{202F}' || c == '\U{205F}' || c == '\U{3000}'
  }

  function LStrip(s: string): string {
    if s != [] && IsSpace(s[0]) then LStrip(s[1..]) else s
  }

  function RStrip(s: string): string {
    if s != [] && IsSpace(s[|s| - 1]) then RStrip(s[..|s| - 1]) else s
  }

  function Strip(s: string): string {
    RStrip(LStrip(s))
  }

  predicate NonBlank(s: string) {
    exists i :: 0 <= i < |s| && !IsSpace(s[i])
  }

  lemma LStripBlank(s: string)
    ensures LStrip(s) == [] <==> !NonBlank(s)
    ensures LStrip(s) != [] ==> !IsSpace(LStrip(s)[0])
  {
    if s != [] && IsSpace(s[0]) {
      LStripBlank(s[1..]);
      if NonBlank(s) {
        var i :| 0 <= i < |s| && !IsSpace(s[i]);
        assert !IsSpace(s[1..][i - 1]);
      }
    }
  }

  lemma RStripKeepsHead(s: string)
    requires s != [] && !IsSpace(s[0])
    ensures RStrip(s) != [] && RStrip(s)[0] == s[0]
    ensures !IsSpace(RStrip(s)[|RStrip(s)| - 1])
  {
    if IsSpace(s[|s| - 1]) { RStripKeepsHead(s[..|s| - 1]); }
  }

  /** Stripping twice is stripping once, and only a blank string strips to nothing. */
  lemma StripLaws(s: string)
    ensures Strip(Strip(s)) == Strip(s)
    ensures Strip(s) == [] <==> !NonBlank(s)
  {
    LStripBlank(s);
    if LStrip(s) != [] { RStripKeepsHead(LStrip(s)); }
  }

  /** Code-point lexicographic order, strict. */
  predicate Less(a: string, b: string) {
    b != [] && (a == [] || a[0] < b[0] || (a[0] == b[0] && Less(a[1..], b[1..])))
  }

  lemma {:induction false} LessTotal(a: string, b: string)
    ensures a == b || Less(a, b) || Less(b, a)
  {
    if a != [] && b != [] && a[0] == b[0] {
      LessTotal(a[1..], b[1..]);
      assert a == [a[0]] + a[1..] && b == [b[0]] + b[1..];
    }
  }

  lemma {:induction false} LessTransitive(a: string, b: string, c: string)
    requires Less(a, b) && Less(b, c)
    ensures Less(a, c)
  {
    if a != [] && a[0] == b[0] == c[0] { LessTransitive(a[1..], b[1..], c[1..]); }
  }

  lemma {:induction false} LessIrreflexive(a: string)
    ensures !Less(a, a)
  {
    if a != [] { LessIrreflexive(a[1..]); }
  }

  type Pair = (string, string)

  predicate PairLess(p: Pair, q: Pair) {
    Less(p.0, q.0) || (p.0 == q.0 && Less(p.1, q.1))
  }

  lemma PairOrder(p: Pair, q: Pair)
    ensures p == q || PairLess(p, q) || PairLess(q, p)
    ensures !(PairLess(p, q) && PairLess(q, p)) && !PairLess(p, p)
  {
    LessTotal(p.0, q.0); LessTotal(p.1, q.1);
    LessIrreflexive(p.0); LessIrreflexive(p.1);
    if Less(p.0, q.0) && Less(q.0, p.0) { LessTransitive(p.0, q.0, p.0); }
    if Less(p.1, q.1) && Less(q.1, p.1) { LessTransitive(p.1, q.1, p.1); }
  }

  lemma PairTransitive(p: Pair, q: Pair, r: Pair)
    requires PairLess(p, q) && PairLess(q, r)
    ensures PairLess(p, r)
  {
    if Less(p.0, q.0) && Less(q.0, r.0) { LessTransitive(p.0, q.0, r.0); }
    if Less(p.1, q.1) && Less(q.1, r.1) { LessTransitive(p.1, q.1, r.1); }
  }

  predicate Ascending(ps: seq<Pair>) {
    forall i, j :: 0 <= i < j < |ps| ==> PairLess(ps[i], ps[j])
  }

  predicate IsFirst(p: Pair, s: set<Pair>) {
    p in s && forall q :: q in s && q != p ==> PairLess(p, q)
  }

  lemma {:induction false} FirstExists(s: set<Pair>)
    requires s != {}
    ensures exists p :: IsFirst(p, s)
    decreases s
  {
    var p :| p in s;
    if s == {p} {
      assert IsFirst(p, s);
    } else {
      FirstExists(s - {p});
      var m :| IsFirst(m, s - {p});
      PairOrder(p, m);
      if PairLess(m, p) {
        assert IsFirst(m, s);
      } else {
        forall q | q in s && q != p ensures PairLess(p, q) {
          if q != m { PairTransitive(p, m, q); }
        }
        assert IsFirst(p, s);
      }
    }
  }

  lemma FirstUnique(s: set<Pair>)
    ensures forall p, q :: IsFirst(p, s) && IsFirst(q, s) ==> p == q
  {
    forall p, q | IsFirst(p, s) && IsFirst(q, s) ensures p == q { PairOrder(p, q); }
  }

  /** Python's `sorted` on a set of pairs. */
  function Sorted(s: set<Pair>): (ps: seq<Pair>)
    ensures Ascending(ps) && |ps| == |s|
    ensures forall p :: p in ps <==> p in s
  {
    if s == {} then [] else
      FirstExists(s);
      FirstUnique(s);
      var p :| IsFirst(p, s);
      [p] + Sorted(s - {p})
  }

  lemma SomeMember(s: seq<Pair>)
    ensures s == [] || exists p :: p in s
  {
    assert s != [] ==> s[0] in s;
  }

  /** An ascending sequence is determined by its elements. */
  lemma {:induction false} AscendingUnique(a: seq<Pair>, b: seq<Pair>)
    requires Ascending(a) && Ascending(b)
    requires forall p :: p in a <==> p in b
    ensures a == b
  {
    SomeMember(a);
    SomeMember(b);
    if a != [] {
      assert a[0] in b && b[0] in a;
      PairOrder(a[0], b[0]);
      forall p ensures p in a[1..] <==> p in b[1..] {
        if p in a[1..] { assert p in b; PairOrder(a[0], p); assert p != b[0]; }
        if p in b[1..] { assert p in a; PairOrder(b[0], p); assert p != a[0]; }
      }
      AscendingUnique(a[1..], b[1..]);
    }
  }

  // ----- What the comparisons mean -----

  /** The white space of `str.isspace`, by code point. */
  lemma SpacesExactly(c: char)
    ensures
      var points := {0x9, 0xA, 0xB, 0xC, 0xD, 0x1C, 0x1D, 0x1E, 0x1F, 0x20, 0x85, 0xA0, 0x1680,
        0x2000, 0x2001, 0x2002, 0x2003, 0x2004, 0x2005, 0x2006, 0x2007, 0x2008, 0x2009, 0x200A,
        0x2028, 0x2029, 0x202F, 0x205F, 0x3000};
      IsSpace(c) <==> c as int in points
  {
  }

  /** White space up to `i`, and none at it. */
  predicate SpacesTo(s: string, i: int) {
    0 <= i <= |s| && (forall k :: 0 <= k < i ==> IsSpace(s[k])) && (i < |s| ==> !IsSpace(s[i]))
  }

  /** White space from `j` on, and none just before it. */
  predicate SpacesFrom(s: string, j: int) {
    0 <= j <= |s| && (forall k :: j <= k < |s| ==> IsSpace(s[k])) && (j > 0 ==> !IsSpace(s[j - 1]))
  }

  lemma {:induction false} LStripMeans(s: string)
    ensures exists i :: SpacesTo(s, i) && LStrip(s) == s[i..]
  {
    hide IsSpace;
    if s != [] && IsSpace(s[0]) {
      LStripMeans(s[1..]);
      var i :| SpacesTo(s[1..], i) && LStrip(s[1..]) == s[1..][i..];
      assert s[1..][i..] == s[i + 1..];
      assert forall k :: 0 < k < |s| ==> s[k] == s[1..][k - 1];
      assert SpacesTo(s, i + 1);
    } else {
      assert SpacesTo(s, 0) && s == s[0..];
    }
  }

  lemma {:induction false} RStripMeans(s: string)
    ensures exists j :: SpacesFrom(s, j) && RStrip(s) == s[..j]
  {
    hide IsSpace;
    if s != [] && IsSpace(s[|s| - 1]) {
      var front := s[..|s| - 1];
      RStripMeans(front);
      var j :| SpacesFrom(front, j) && RStrip(front) == front[..j];
      assert front[..j] == s[..j];
      assert forall k :: 0 <= k < |front| ==> front[k] == s[k];
      assert SpacesFrom(s, j);
    } else {
      assert SpacesFrom(s, |s|) && s == s[..|s|];
    }
  }

  /** `s[i..j]` has only white space around it and none at its ends. */
  predicate StrippedTo(s: string, i: int, j: int) {
    && 0 <= i <= j <= |s|
    && (forall k :: 0 <= k < i ==> IsSpace(s[k])) && (forall k :: j <= k < |s| ==> IsSpace(s[k]))
    && (i < j ==> !IsSpace(s[i]) && !IsSpace(s[j - 1]))
  }

  lemma BothEnds(s: string, i: int, j: int)
    requires SpacesTo(s, i) && SpacesFrom(s[i..], j)
    ensures StrippedTo(s, i, i + j) && s[i..][..j] == s[i..i + j]
  {
    hide IsSpace;
    var rest := s[i..];
    assert forall k :: 0 <= k < |rest| ==> rest[k] == s[i + k];
    forall k | i + j <= k < |s| ensures IsSpace(s[k]) { assert s[k] == rest[k - i]; }
  }

  /** Stripping takes the white space off both ends and nothing else. */
  lemma StripMeans(s: string)
    ensures exists i, j :: StrippedTo(s, i, j) && Strip(s) == s[i..j]
  {
    hide IsSpace, LStrip, RStrip;
    LStripMeans(s);
    var i :| SpacesTo(s, i) && LStrip(s) == s[i..];
    RStripMeans(s[i..]);
    var j :| SpacesFrom(s[i..], j) && RStrip(s[i..]) == s[i..][..j];
    BothEnds(s, i, j);
    assert StrippedTo(s, i, i + j) && Strip(s) == s[i..i + j];
  }

  /** `a` and `b` first differ at `k`, where `a` has ended or has the smaller character. */
  predicate Before(a: string, b: string, k: int) {
    && 0 <= k <= |a| && k < |b|
    && (forall i :: 0 <= i < k ==> a[i] == b[i])
    && (k < |a| ==> a[k] < b[k])
  }

  /** The order is that of the first code point at which the strings differ. */
  lemma {:induction false} LessMeans(a: string, b: string)
    ensures Less(a, b) <==> exists k :: Before(a, b, k)
  {
    if Less(a, b) {
      if a != [] && a[0] == b[0] {
        LessMeans(a[1..], b[1..]);
        var k :| Before(a[1..], b[1..], k);
        assert forall i :: 0 < i < k + 1 ==> a[i] == a[1..][i - 1] && b[i] == b[1..][i - 1];
        assert Before(a, b, k + 1);
      } else {
        assert Before(a, b, 0);
      }
    }
    if k :| Before(a, b, k) {
      if k > 0 {
        assert forall i :: 0 <= i < k - 1 ==> a[1..][i] == a[i + 1] && b[1..][i] == b[i + 1];
        assert Before(a[1..], b[1..], k - 1);
        LessMeans(a[1..], b[1..]);
      }
    }
  }

  /** Pairs are sorted by their first string, then by their second. */
  lemma SortedMeans(s: set<Pair>, i: nat, j: nat)
    requires i < j < |Sorted(s)|
    ensures
      var p, q := Sorted(s)[i], Sorted(s)[j];
      (exists k :: Before(p.0, q.0, k)) || (p.0 == q.0 && exists k :: Before(p.1, q.1, k))
  {
    var p, q := Sorted(s)[i], Sorted(s)[j];
    LessMeans(p.0, q.0);
    LessMeans(p.1, q.1);
  }
}
