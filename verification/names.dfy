/**
 * Domain names as sequences of labels, leftmost label first; the root is the empty sequence.
 * Labels are octet strings, already lower-cased and unescaped.
 */
module Names {
  import opened Bytes

  type Label = Str
  type Name = seq<Label>

  const STAR: Label := [42]

  /** `dns.IsSubDomain(p, n)`: `n` lies at or below `p`. */
  predicate IsSub(p: Name, n: Name) {
    |p| <= |n| && n[|n| - |p|..] == p
  }

  /** The `k` rightmost labels of `q`. */
  function Tail(q: Name, k: nat): (r: Name)
    requires k <= |q|
    ensures |r| == k && IsSub(r, q)
  {
    q[|q| - k..]
  }

  function Last(n: Name): Label
    requires n != []
  {
    n[|n| - 1]
  }

  function Front(n: Name): Name
    requires n != []
  {
    n[..|n| - 1]
  }

  /** Canonical order of names, section 6.1 of RFC 4034: label by label from the right, each label as an octet string. */
  function CanonCmp(a: Name, b: Name): (c: int)
    ensures -1 <= c <= 1
  {
    if a == [] then (if b == [] then 0 else -1)
    else if b == [] then 1
    else
      var c := Compare(Last(a), Last(b));
      if c != 0 then c else CanonCmp(Front(a), Front(b))
  }

  lemma {:induction false} CanonEqual(a: Name, b: Name)
    ensures CanonCmp(a, b) == 0 <==> a == b
  {
    if a != [] && b != [] {
      CompareEqual(Last(a), Last(b));
      CanonEqual(Front(a), Front(b));
      assert a == Front(a) + [Last(a)] && b == Front(b) + [Last(b)];
    }
  }

  lemma {:induction false} CanonFlip(a: Name, b: Name)
    ensures CanonCmp(a, b) == -CanonCmp(b, a)
  {
    if a != [] && b != [] {
      CompareFlip(Last(a), Last(b));
      CanonFlip(Front(a), Front(b));
    }
  }

  lemma {:induction false} CanonTransitive(a: Name, b: Name, c: Name)
    requires CanonCmp(a, b) < 0 && CanonCmp(b, c) < 0
    ensures CanonCmp(a, c) < 0
  {
    if a != [] {
      CompareEqual(Last(a), Last(b));
      CompareEqual(Last(b), Last(c));
      if Last(a) == Last(b) == Last(c) {
        CanonTransitive(Front(a), Front(b), Front(c));
      } else if Last(a) != Last(b) && Last(b) != Last(c) {
        CompareTransitive(Last(a), Last(b), Last(c));
      }
    }
  }

  /** An ancestor never sorts after its descendants. */
  lemma {:induction false} CanonAncestorFirst(p: Name, n: Name)
    requires IsSub(p, n)
    ensures CanonCmp(p, n) <= 0
  {
    if p != [] {
      assert Last(n) == Last(p);
      CompareEqual(Last(p), Last(n));
      assert Front(n)[|Front(n)| - |Front(p)|..] == Front(p);
      CanonAncestorFirst(Front(p), Front(n));
    }
  }

  /** Descendants are contiguous: whatever sorts between a name and one of its descendants is a descendant itself. */
  lemma {:induction false} CanonConvex(p: Name, x: Name, y: Name)
    requires CanonCmp(p, x) <= 0 && CanonCmp(x, y) <= 0 && IsSub(p, y)
    ensures IsSub(p, x)
  {
    if p != [] {
      assert Last(y) == Last(p);
      CompareEqual(Last(p), Last(x));
      CompareFlip(Last(p), Last(x));
      assert Front(y)[|Front(y)| - |Front(p)|..] == Front(p);
      CanonConvex(Front(p), Front(x), Front(y));
      var j := |x| - |p|;
      assert x[j..] == Front(x)[j..] + [Last(x)];
    }
  }

  /**
   * The label with the closing dot that `less` leaves on it. No name has an empty label; it gets no dot here, so that it
   * cannot be taken for the root.
   */
  function DottedLabel(l: Label): Str {
    if l == [] then [] else l + [DOT]
  }

  function DottedLabels(n: Name): (d: Name)
    ensures |d| == |n|
  {
    seq(|n|, i requires 0 <= i < |n| => DottedLabel(n[i]))
  }

  /** The labels of a name as `less` reads them: the root is written as a single dot and counts as one label. */
  function Dotted(n: Name): Name {
    if n == [] then [[DOT]] else DottedLabels(n)
  }

  /** The order of the zone tree: canonical order, except that every label is compared with its closing dot. */
  function TreeCmp(a: Name, b: Name): (c: int)
    ensures -1 <= c <= 1
  {
    CanonCmp(Dotted(a), Dotted(b))
  }

  /** `tree.less`: peel labels off the right of both names until they differ or both are used up. */
  method Less(a: Name, b: Name) returns (c: int)
    ensures c == TreeCmp(a, b)
  {
    var da, db := Dotted(a), Dotted(b);
    var aj, bj := |da|, |db|;
    assert da[..aj] == da && db[..bj] == db;
    while true
      invariant 0 <= aj <= |da| && 0 <= bj <= |db|
      invariant TreeCmp(a, b) == CanonCmp(da[..aj], db[..bj])
      decreases aj + bj
    {
      if aj == 0 && bj == 0 {
        return 0;
      }
      assert aj != 0 ==> Front(da[..aj]) == da[..aj - 1];
      assert bj != 0 ==> Front(db[..bj]) == db[..bj - 1];
      var la := if aj == 0 then [] else da[aj - 1];
      var lb := if bj == 0 then [] else db[bj - 1];
      var res := Compare(la, lb);
      if res != 0 {
        return res;
      }
      CompareEqual(la, lb);
      if aj == 0 || bj == 0 {
        return if aj == 0 then -1 else 1; // an empty label
      }
      aj, bj := aj - 1, bj - 1;
    }
  }

  lemma DottedLabelsDiffer(a: Label, b: Label)
    requires a != b
    ensures DottedLabel(a) != DottedLabel(b)
  {
    assert a == (a + [DOT])[..|a|] && b == (b + [DOT])[..|b|];
  }

  lemma DottedLabelsInjective(a: Name, b: Name)
    requires DottedLabels(a) == DottedLabels(b)
    ensures a == b
  {
    forall i | 0 <= i < |a|
      ensures a[i] == b[i]
    {
      assert DottedLabels(a)[i] == DottedLabels(b)[i];
      if a[i] != b[i] { DottedLabelsDiffer(a[i], b[i]); }
    }
  }

  lemma DottedInjective(a: Name, b: Name)
    requires Dotted(a) == Dotted(b)
    ensures a == b
  {
    if a != [] && b != [] {
      DottedLabelsInjective(a, b);
    } else {
      assert forall n: Name :: n != [] ==> Dotted(n)[0] == DottedLabel(n[0]) != [DOT];
    }
  }

  lemma DottedSub(p: Name, n: Name)
    requires p != []
    ensures IsSub(p, n) <==> IsSub(Dotted(p), Dotted(n))
  {
    if n == [] {
      assert Dotted(p)[0] == DottedLabel(p[0]) != [DOT];
      assert Dotted(n)[0..] == Dotted(n);
    } else if |p| <= |n| {
      var t := n[|n| - |p|..];
      assert Dotted(n)[|n| - |p|..] == DottedLabels(t);
      if DottedLabels(t) == DottedLabels(p) {
        DottedLabelsInjective(t, p);
      }
    }
  }

  lemma TreeEqual(a: Name, b: Name)
    ensures TreeCmp(a, b) == 0 <==> a == b
  {
    CanonEqual(Dotted(a), Dotted(b));
    if Dotted(a) == Dotted(b) {
      DottedInjective(a, b);
    }
  }

  lemma TreeFlip(a: Name, b: Name)
    ensures TreeCmp(a, b) == -TreeCmp(b, a)
  {
    CanonFlip(Dotted(a), Dotted(b));
  }

  lemma TreeTransitive(a: Name, b: Name, c: Name)
    requires TreeCmp(a, b) < 0 && TreeCmp(b, c) < 0
    ensures TreeCmp(a, c) < 0
  {
    CanonTransitive(Dotted(a), Dotted(b), Dotted(c));
  }

  /** An ancestor other than the root never sorts after its descendants. */
  lemma TreeAncestorFirst(p: Name, n: Name)
    requires IsSub(p, n) && p != []
    ensures TreeCmp(p, n) <= 0
  {
    DottedSub(p, n);
    CanonAncestorFirst(Dotted(p), Dotted(n));
  }

  /** The root sorts before exactly the names whose rightmost label begins at or after the dot: `*` and `-x` sort before it. */
  lemma RootFirstIff(n: Name)
    ensures TreeCmp([], n) <= 0 <==> n == [] || (Last(n) != [] && Last(n)[0] >= DOT)
  {
    if n == [] {
      TreeEqual(n, n);
    } else {
      assert Last(Dotted(n)) == DottedLabel(Last(n)) && Last(Dotted([])) == [DOT];
      assert Last(n) != [] && Last(n)[0] == DOT ==> Compare([DOT], Last(n) + [DOT]) == Compare([], (Last(n) + [DOT])[1..]);
    }
  }

  /** Whatever sorts between a name and one of its descendants is a descendant itself. */
  lemma TreeConvex(p: Name, x: Name, y: Name)
    requires TreeCmp(p, x) <= 0 && TreeCmp(x, y) <= 0 && IsSub(p, y)
    ensures IsSub(p, x)
  {
    if p != [] {
      DottedSub(p, y);
      CanonConvex(Dotted(p), Dotted(x), Dotted(y));
      DottedSub(p, x);
    }
  }

  /** `a` is a proper prefix of `b` and the octet that follows it in `b` sorts before the dot, as a hyphen does. */
  predicate PrefixBelowDot(a: Label, b: Label) {
    0 < |a| < |b| && a == b[..|a|] && b[|a|] < DOT
  }

  lemma {:induction false} DotsAgree(a: Str, b: Str)
    ensures Compare(a + [DOT], b + [DOT]) == Compare(a, b) <==>
      !(|a| < |b| && a == b[..|a|] && b[|a|] < DOT) && !(|b| < |a| && b == a[..|b|] && a[|b|] < DOT)
  {
    var da, db := a + [DOT], b + [DOT];
    if a == [] || b == [] {
      assert b != [] ==> b[..0] == [];
      assert a != [] ==> a[..0] == [];
    } else if a[0] == b[0] {
      assert da[1..] == a[1..] + [DOT] && db[1..] == b[1..] + [DOT];
      DotsAgree(a[1..], b[1..]);
      if |a| <= |b| {
        assert a == [a[0]] + a[1..] && b[..|a|] == [b[0]] + b[1..][..|a| - 1];
      }
      if |b| <= |a| {
        assert b == [b[0]] + b[1..] && a[..|b|] == [a[0]] + a[1..][..|b| - 1];
      }
    }
  }

  lemma LabelOrdersAgree(a: Label, b: Label)
    ensures Compare(DottedLabel(a), DottedLabel(b)) == Compare(a, b) <==> !PrefixBelowDot(a, b) && !PrefixBelowDot(b, a)
  {
    if a != [] && b != [] { DotsAgree(a, b); }
  }

  /** The rightmost labels in which the two names differ are ordered differently with and without their dots. */
  predicate LabelsInverted(a: Name, b: Name) {
    a != [] && b != [] &&
    if Last(a) == Last(b) then LabelsInverted(Front(a), Front(b))
    else PrefixBelowDot(Last(a), Last(b)) || PrefixBelowDot(Last(b), Last(a))
  }

  /** The tree puts the name before the root. */
  predicate BeforeRoot(n: Name) {
    n != [] && (Last(n) == [] || Last(n)[0] < DOT)
  }

  /** The tree orders the two names differently from RFC 4034. */
  predicate Inverted(a: Name, b: Name) {
    if a == [] then BeforeRoot(b) else if b == [] then BeforeRoot(a) else LabelsInverted(a, b)
  }

  lemma {:induction false} DottedLabelsOrder(a: Name, b: Name)
    ensures CanonCmp(DottedLabels(a), DottedLabels(b)) == CanonCmp(a, b) <==> !LabelsInverted(a, b)
  {
    if a != [] && b != [] {
      LabelOrdersAgree(Last(a), Last(b));
      CompareEqual(Last(a), Last(b));
      CompareEqual(DottedLabel(Last(a)), DottedLabel(Last(b)));
      if Last(a) == Last(b) {
        assert Front(DottedLabels(a)) == DottedLabels(Front(a)) && Front(DottedLabels(b)) == DottedLabels(Front(b));
        DottedLabelsOrder(Front(a), Front(b));
      } else {
        DottedLabelsDiffer(Last(a), Last(b));
      }
    }
  }

  /** The tree's order of two names is the canonical one exactly when the names are not inverted. */
  lemma TreeOrderIsCanonical(a: Name, b: Name)
    ensures TreeCmp(a, b) == CanonCmp(a, b) <==> !Inverted(a, b)
  {
    if a != [] && b != [] {
      DottedLabelsOrder(a, b);
    } else if a == [] {
      RootFirstIff(b);
      TreeEqual(a, b);
    } else {
      RootFirstIff(a);
      TreeEqual(a, b);
      TreeFlip(a, b);
    }
  }
}
