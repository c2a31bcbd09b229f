/**
 * Loaded zones for which a denial falls short: the encloser below a root origin, and names that the authority section of
 * their denial does not cover, because of a hyphen, of glue or of a wildcard without the type.
 */
module DenialFailures {
  import opened Bytes
  import opened Names
  import opened Records
  import opened ZoneTree
  import opened Lookup
  import opened Resolution
  import opened Zones
  import opened Options
  import opened Nsec
  import opened Denial

  // ----- the encloser below a root origin -----

  /** With the root and a single label loaded under the root, the encloser found for a name below that label is the root. */
  lemma RootEncloserIsMissed(a: Label, b: Label, rrs: seq<RR>) returns (z: ZoneData, q: Name)
    requires |rrs| == 2 && rrs[0].owner == [] && rrs[1].owner == [a] && rrs[0].rtype == TYPE_A && rrs[1].rtype == TYPE_A
    ensures InsertAll(Fresh([]), rrs) == Some(z) && q == [b, a] && IsLongestStored(Contents(z.tree), q, 1)
    ensures IsStoredEncloser(Contents(z.tree), [], q, []) && !IsStoredEncloser(Contents(z.tree), [], q, Tail(q, 1))
  {
    q := [b, a];
    assert rrs == [rrs[0], rrs[1]];
    z := LoadTwo([], rrs[0], rrs[1]);
    assert Tail(q, 1) == [a];
    SingleLabelMissed(Contents(z.tree), q);
  }

  lemma SingleLabelMissed(m: Nodes, q: Name)
    requires |q| == 2 && Tail(q, 1) in m && (forall n :: n in m ==> |n| <= 1)
    ensures IsLongestStored(m, q, 1) && IsStoredEncloser(m, [], q, []) && !IsStoredEncloser(m, [], q, Tail(q, 1))
  {
    assert |Tail(q, 2)| == 2 && |Tail(q, 1)| == 1;
    forall e: nat | 2 <= e <= |q| ensures Tail(q, e) !in m { assert e == 2; }
  }

  // ----- names under one label -----

  lemma PairOrder(x: Label, y: Label, e: Label)
    ensures CanonCmp([x, e], [y, e]) == Compare(x, y)
  {
    var a: Name, b: Name := [x, e], [y, e];
    assert Front(a) == [x] && Front(b) == [y] && Last(a) == Last(b) == e;
    CompareEqual(e, e);
    assert CanonCmp(a, b) == CanonCmp([x], [y]);
    assert Front([x]) == [] && Front([y]) == [] && Last([x]) == x && Last([y]) == y;
  }

  lemma SiblingOrder(x: Label, y: Label, e: Label)
    ensures CanonCmp([x, e], [y, e]) == Compare(x, y)
    ensures TreeCmp([x, e], [y, e]) == Compare(DottedLabel(x), DottedLabel(y))
  {
    PairOrder(x, y, e);
    assert Dotted([x, e]) == [DottedLabel(x), DottedLabel(e)] && Dotted([y, e]) == [DottedLabel(y), DottedLabel(e)];
    PairOrder(DottedLabel(x), DottedLabel(y), DottedLabel(e));
  }

  lemma DeepOrder(x: Label, y: Label, z: Label, e: Label)
    requires Compare(y, z) != 0
    ensures CanonCmp([x, y, e], [z, e]) == Compare(y, z)
  {
    var a: Name, b: Name := [x, y, e], [z, e];
    assert Front(a) == [x, y] && Front(b) == [z] && Last(a) == Last(b) == e;
    CompareEqual(e, e);
    assert CanonCmp(a, b) == CanonCmp([x, y], [z]);
    assert Last([x, y]) == y && Last([z]) == z;
  }

  lemma NephewOrder(x: Label, y: Label, z: Label, e: Label)
    requires Compare(DottedLabel(y), DottedLabel(z)) != 0
    ensures TreeCmp([x, y, e], [z, e]) == Compare(DottedLabel(y), DottedLabel(z))
  {
    assert Dotted([x, y, e]) == [DottedLabel(x), DottedLabel(y), DottedLabel(e)] && Dotted([z, e]) == [DottedLabel(z), DottedLabel(e)];
    DeepOrder(DottedLabel(x), DottedLabel(y), DottedLabel(z), DottedLabel(e));
  }

  /** A name right below the apex. */
  lemma RightBelow(x: Label, e: Label)
    ensures var a: Name := [x, e]; |a| == 2 && IsSub([e], a) && CanonCmp([e], a) < 0 && a[0] == x
  {
    assert [x, e][1..] == [e];
    CanonAncestorFirst([e], [x, e]);
    CanonEqual([e], [x, e]);
  }

  // ----- a denial that proves nothing -----

  /** `q` is a name right below the apex `e`, and `w` the wildcard beside it. */
  ghost predicate Beside(e: Name, q: Name, w: Name) {
    && |e| == 1 && |q| == 2 && Tail(q, 1) == e && Tail(q, 2) == q && StarBelow(q, 1) == w && IsSub(e, q) && IsSub(e, w)
    && AsteriskLabel(q) == Some(w) && AsteriskLabel(e) == None
  }

  lemma BesideLabel(x: Label, e: Label)
    ensures Beside([e], [x, e], [STAR, e])
  {
    var q: Name := [x, e];
    assert q[1..] == [e] && q[0..] == q && [STAR, e][1..] == [e];
  }

  /** Nothing at or below `q` is stored, no wildcard either, and the apex is no cut. */
  ghost predicate Missing(m: Nodes, e: Name, q: Name, w: Name) {
    && e in m && q !in m && w !in m && (forall x :: x in m ==> !IsSub(q, x))
    && OfType(m[e], TYPE_DNAME) == [] && OfType(m[e], TYPE_NS) == []
  }

  lemma IsMissing(m: Nodes, e: Name, a: Name, b: Name, q: Name, w: Name)
    requires |e| == 1 && |a| == 2 && |q| == 2 && |w| == 2 && a != q && a != w && b != q && b != w && !IsSub(q, b)
    requires (forall x :: x in m <==> x == e || x == a || x == b) && OfType(m[e], TYPE_DNAME) == [] && OfType(m[e], TYPE_NS) == []
    ensures Missing(m, e, q, w)
  {
    assert !IsSub(q, a) by { assert a[0..] == a; }
  }

  lemma MissingDecides(m: Nodes, e: Name, q: Name, w: Name)
    requires Beside(e, q, w) && Missing(m, e, q, w)
    ensures Decides(m, e, q, TYPE_A, NoName) && IsLongestStored(m, q, 1)
  {
    assert forall d: nat :: 1 <= d < 3 ==> !Stops(m, q, TYPE_A, d);
    assert StarBeside(m, q, 2) == None && StarBeside(m, q, 1) == None;
    assert WildSeen(m, q, 1, 1) == None && WildSeen(m, q, 1, 2) == None;
  }

  /** The one NSEC of a node. */
  ghost predicate LinksTo(m: Nodes, n: Name, nx: Name) {
    n in m && OfType(m[n], TYPE_NSEC) == [RR(n, TYPE_NSEC, 60, NextOwner(nx))]
  }

  /** The chain of the zone has two names, the apex `e` and `a`. */
  ghost predicate TwoSigned(m: Nodes, e: Name, a: Name) {
    && InZone(m, e) && LinksTo(m, e, a) && LinksTo(m, a, e) && CanonCmp(e, a) < 0
    && (forall n :: InChain(m, n) ==> n == e || n == a)
  }

  lemma IsTwoSigned(m: Nodes, e: Name, a: Name, b: Name)
    requires (forall x :: x in m <==> x == e || x == a || x == b) && LinksTo(m, e, a) && LinksTo(m, a, e)
    requires IsSub(e, a) && IsSub(e, b) && CanonCmp(e, a) < 0 && (b == a || OfType(m[b], TYPE_NSEC) == [])
    ensures TwoSigned(m, e, a)
  {
    assert IsSub(e, e) by { assert e[0..] == e; }
  }

  lemma TwoSignedChain(m: Nodes, e: Name, a: Name)
    requires TwoSigned(m, e, a)
    ensures Signed(m, e)
  {
    assert IsCanonNext(m, e, e, a) by { CanonEqual(e, e); CanonEqual(a, a); }
    assert IsCanonNext(m, e, a, e) by { CanonEqual(a, a); }
    assert forall n :: InChain(m, n) ==> IsLink(m, e, n, OfType(m[n], TYPE_NSEC));
  }

  lemma TwoSignedPrev(m: Nodes, e: Name, a: Name, q: Name)
    requires TwoSigned(m, e, a) && CanonCmp(a, q) < 0
    ensures IsCanonPrev(m, q, a)
  {
    CanonEqual(a, a);
  }

  lemma CanonPrevUnique(m: Nodes, q: Name, a: Name, b: Name)
    requires IsCanonPrev(m, q, a) && IsCanonPrev(m, q, b)
    ensures a == b
  {
    CanonOrder(a, b, b);
  }

  lemma NotAtHand(m: Nodes, q: Name, w: Name, a: Name)
    requires IsCanonPrev(m, q, a) && !IsTreePrev(m, q, a) && !IsTreePrev(m, w, a)
    ensures !AtHand(m, q, w, q)
  {
    forall n | IsCanonPrev(m, q, n) ensures n == a {
      CanonPrevUnique(m, q, a, n);
    }
  }

  /** If `a` comes canonically before `q`, but the tree offers it neither for `q` nor for `w`, nothing in the section covers `q`. */
  lemma TwoSignedUnproved(m: Nodes, e: Name, a: Name, q: Name, w: Name, base: seq<RR>, auth: seq<RR>)
    requires TwoSigned(m, e, a) && Beside(e, q, w) && Missing(m, e, q, w) && CanonCmp(a, q) < 0
    requires !IsTreePrev(m, q, a) && !IsTreePrev(m, w, a)
    requires NoNsec(base) && IsDenial(m, e, q, base, true, auth)
    ensures !Proves(auth, e, q)
  {
    TwoSignedChain(m, e, a);
    MissingDecides(m, e, q, w);
    var d := NameProvedIff(m, e, q, TYPE_A, base, auth);
    assert d == 1 by { LongestUnique(m, q, 1); }
    TwoSignedPrev(m, e, a, q);
    NotAtHand(m, q, w, a);
  }

  /** A loaded zone in which NXDOMAIN is decided for `q` and whatever is sent with it does not cover `q`. */
  ghost predicate Uncovered(z: ZoneData, q: Name, base: seq<RR>) {
    && Signed(Contents(z.tree), z.origin) && Decides(Contents(z.tree), z.origin, q, TYPE_A, NoName)
    && forall auth :: IsDenial(Contents(z.tree), z.origin, q, base, true, auth) ==> !Proves(auth, z.origin, q)
  }

  lemma TwoSignedUncovered(z: ZoneData, a: Name, q: Name, w: Name, base: seq<RR>)
    requires var m, e := Contents(z.tree), z.origin; TwoSigned(m, e, a) && Beside(e, q, w) && Missing(m, e, q, w)
    requires CanonCmp(a, q) < 0 && !IsTreePrev(Contents(z.tree), q, a) && !IsTreePrev(Contents(z.tree), w, a) && NoNsec(base)
    ensures Uncovered(z, q, base)
  {
    var m, e := Contents(z.tree), z.origin;
    TwoSignedChain(m, e, a);
    MissingDecides(m, e, q, w);
    forall auth | IsDenial(m, e, q, base, true, auth) ensures !Proves(auth, e, q) {
      TwoSignedUnproved(m, e, a, q, w, base, auth);
    }
  }

  // ----- a hyphen -----

  /** `a` comes before `q` in canonical order, but after `q` and after `w` in the tree. */
  ghost predicate InvertedNames(e: Name, a: Name, q: Name, w: Name) {
    && Beside(e, q, w) && |w| == 2 && |a| == 2 && IsSub(e, a) && CanonCmp(e, a) < 0
    && a != q && a != w && !IsSub(q, a) && CanonCmp(a, q) < 0 && TreeCmp(a, q) > 0 && TreeCmp(a, w) > 0
  }

  /** The two NSECs of a zone with the names `e` and `a`. */
  function TwoNames(e: Name, a: Name): seq<RR> {
    [RR(e, TYPE_NSEC, 60, NextOwner(a)), RR(a, TYPE_NSEC, 60, NextOwner(e))]
  }

  lemma InvertedIsUncovered(e: Name, a: Name, q: Name, w: Name, base: seq<RR>) returns (z: ZoneData)
    requires InvertedNames(e, a, q, w) && NoNsec(base)
    ensures InsertAll(Fresh(e), TwoNames(e, a)) == Some(z) && z.origin == e && Uncovered(z, q, base)
  {
    z := LoadTwo(e, RR(e, TYPE_NSEC, 60, NextOwner(a)), RR(a, TYPE_NSEC, 60, NextOwner(e)));
    TwoRecords(Contents(z.tree), e, a);
    IsMissing(Contents(z.tree), e, a, a, q, w);
    IsTwoSigned(Contents(z.tree), e, a, a);
    TwoSignedUncovered(z, a, q, w, base);
  }

  lemma TwoRecords(m: Nodes, e: Name, a: Name)
    requires e != a && TwoNodes(m, RR(e, TYPE_NSEC, 60, NextOwner(a)), RR(a, TYPE_NSEC, 60, NextOwner(e)))
    ensures forall x :: x in m <==> x == e || x == a
    ensures LinksTo(m, e, a) && LinksTo(m, a, e) && OfType(m[e], TYPE_DNAME) == [] && OfType(m[e], TYPE_NS) == []
  {
  }

  /**
   * With the signed names `e` and `a.e` loaded, NXDOMAIN is decided for `a-b.e`, but nothing in the authority section of
   * that answer covers it.
   */
  lemma HyphenIsNotCovered(base: seq<RR>) returns (z: ZoneData)
    requires NoNsec(base)
    ensures InsertAll(Fresh([[101]]), TwoNames([[101]], [[97], [101]])) == Some(z) && z.origin == [[101]]
    ensures Uncovered(z, [[97, 45, 98], [101]], base)
  {
    HyphenNames();
    z := InvertedIsUncovered([[101]], [[97], [101]], [[97, 45, 98], [101]], [STAR, [101]], base);
  }

  lemma HyphenNames()
    ensures InvertedNames([[101]], [[97], [101]], [[97, 45, 98], [101]], [STAR, [101]])
  {
    BesideLabel([97, 45, 98], [101]);
    RightBelow([97], [101]);
    SiblingOrder([97], [97, 45, 98], [101]);
    SiblingOrder([97], STAR, [101]);
    HyphenOrder();
    TreeEqual([[97], [101]], [STAR, [101]]);
    TreeEqual([[97], [101]], [[97, 45, 98], [101]]);
    NotBelowSibling([[97], [101]], [[97, 45, 98], [101]]);
  }

  lemma NotBelowSibling(a: Name, q: Name)
    requires |a| == |q| && a != q
    ensures !IsSub(q, a)
  {
    assert a[0..] == a;
  }

  lemma HyphenOrder()
    ensures var a: Label, b: Label := [97], [97, 45, 98];
      && Compare(a, b) < 0 && Compare(DottedLabel(a), DottedLabel(b)) > 0 && Compare(DottedLabel(a), DottedLabel(STAR)) > 0
  {
    CompareCommonPrefix([97], [], [45, 98]);
    assert [97] + [] == [97] && [97] + [45, 98] == [97, 45, 98];
    CompareCommonPrefix([97], [46], [45, 98, 46]);
    assert [97] + [46] == [97] + [DOT] && [97] + [45, 98, 46] == [97, 45, 98] + [DOT];
  }

  // ----- glue -----

  /** `n` is below `s`, and both come before `q` and after `w`. */
  ghost predicate GlueNames(e: Name, s: Name, n: Name, q: Name, w: Name) {
    && Beside(e, q, w) && |w| == 2 && |s| == 2 && |n| == 3 && IsSub(e, s) && IsSub(e, n) && CanonCmp(e, s) < 0
    && s != q && s != w && !IsSub(q, n) && CanonCmp(s, q) < 0 && TreeCmp(s, w) > 0 && TreeCmp(n, q) <= 0 && TreeCmp(n, s) > 0
  }

  /** A signed zone `e` that delegates `s` to `n`. */
  function Delegating(e: Name, s: Name, n: Name): (rs: seq<RR>)
    ensures |rs| == 4
  {
    [RR(e, TYPE_NSEC, 60, NextOwner(s)), RR(s, TYPE_NSEC, 60, NextOwner(e)),
     RR(s, TYPE_NS, 60, Target(n)), RR(n, TYPE_A, 60, Opaque([1]))]
  }

  /** The node before `q` is the glue, which has no NSEC. */
  lemma GlueIsUncovered(e: Name, s: Name, n: Name, q: Name, w: Name, base: seq<RR>) returns (z: ZoneData)
    requires GlueNames(e, s, n, q, w) && NoNsec(base)
    ensures InsertAll(Fresh(e), Delegating(e, s, n)) == Some(z) && z.origin == e && Uncovered(z, q, base)
  {
    z := LoadFour(e, Delegating(e, s, n));
    GlueRecords(Contents(z.tree), e, s, n);
    IsMissing(Contents(z.tree), e, s, n, q, w);
    IsTwoSigned(Contents(z.tree), e, s, n);
    GlueNotOffered(Contents(z.tree), s, n, q, w);
    TwoSignedUncovered(z, s, q, w, base);
  }

  lemma GlueRecords(m: Nodes, e: Name, s: Name, n: Name)
    requires FourRecords(m, Delegating(e, s, n)) && |e| == 1 && |s| == 2 && |n| == 3
    ensures forall x :: x in m <==> x == e || x == s || x == n
    ensures LinksTo(m, e, s) && LinksTo(m, s, e) && OfType(m[n], TYPE_NSEC) == []
    ensures OfType(m[e], TYPE_DNAME) == [] && OfType(m[e], TYPE_NS) == []
  {
  }

  lemma GlueNotOffered(m: Nodes, s: Name, n: Name, q: Name, w: Name)
    requires n in m && TreeCmp(s, w) > 0 && TreeCmp(n, q) <= 0 && TreeCmp(n, s) > 0
    ensures !IsTreePrev(m, q, s) && !IsTreePrev(m, w, s)
  {
  }

  /**
   * With a signed zone loaded that delegates `s.e` to `n.s.e`, NXDOMAIN is decided for `t.e`, but nothing in the authority
   * section of that answer covers it.
   */
  lemma GlueIsNotCovered(base: seq<RR>) returns (z: ZoneData)
    requires NoNsec(base)
    ensures InsertAll(Fresh([[101]]), Delegating([[101]], [[115], [101]], [[110], [115], [101]])) == Some(z) && z.origin == [[101]]
    ensures Uncovered(z, [[116], [101]], base)
  {
    GlueNamed([101], [115], [110], [116]);
    z := GlueIsUncovered([[101]], [[115], [101]], [[110], [115], [101]], [[116], [101]], [STAR, [101]], base);
  }

  lemma GlueNamed(e: Label, s: Label, n: Label, t: Label)
    requires Compare(s, t) < 0 && Compare(DottedLabel(s), DottedLabel(t)) < 0 && Compare(DottedLabel(s), DottedLabel(STAR)) > 0
    ensures GlueNames([e], [s, e], [n, s, e], [t, e], [STAR, e])
  {
    BesideLabel(t, e);
    RightBelow(s, e);
    SiblingOrder(s, t, e);
    SiblingOrder(s, STAR, e);
    NephewOrder(n, s, t, e);
    GlueBelow(e, s, n, t);
    CanonEqual([s, e], [t, e]);
    TreeEqual([s, e], [STAR, e]);
  }

  lemma GlueBelow(e: Label, s: Label, n: Label, t: Label)
    requires Compare(s, t) < 0
    ensures var g: Name := [n, s, e]; |g| == 3 && IsSub([e], g) && TreeCmp(g, [s, e]) > 0 && !IsSub([t, e], g)
  {
    assert [n, s, e][1..] == [s, e] && [n, s, e][2..] == [e];
    CompareEqual(s, t);
    assert [s, e][0] == s && [t, e][0] == t;
    TreeAncestorFirst([s, e], [n, s, e]);
    TreeEqual([n, s, e], [s, e]);
    TreeFlip([n, s, e], [s, e]);
  }

  // ----- a wildcard without the type -----

  /** The names in canonical order: `e`, its wildcard `w`, `a` and `q`. */
  ghost predicate WildcardNames(e: Name, w: Name, a: Name, q: Name) {
    && Beside(e, q, w) && |w| == 2 && |a| == 2 && IsSub(e, a) && a != w && a != q && q != w
    && CanonCmp(e, w) < 0 && CanonCmp(w, a) < 0 && CanonCmp(a, w) > 0 && CanonCmp(a, q) < 0
  }

  /** A signed zone with a wildcard that has no address, and an address at `a`. */
  function WithWildcard(e: Name, w: Name, a: Name): (rs: seq<RR>)
    ensures |rs| == 4
  {
    [RR(e, TYPE_NSEC, 60, NextOwner(w)), RR(w, TYPE_NSEC, 60, NextOwner(a)),
     RR(a, TYPE_NSEC, 60, NextOwner(e)), RR(a, TYPE_A, 60, Opaque([1]))]
  }

  /** The chain has three names. */
  ghost predicate ThreeSigned(m: Nodes, e: Name, a: Name, b: Name) {
    && InZone(m, e) && LinksTo(m, e, a) && LinksTo(m, a, b) && LinksTo(m, b, e) && CanonCmp(e, a) < 0 && CanonCmp(a, b) < 0
    && (forall n :: InChain(m, n) ==> n == e || n == a || n == b)
  }

  lemma ThreeSignedChain(m: Nodes, e: Name, a: Name, b: Name)
    requires ThreeSigned(m, e, a, b)
    ensures Signed(m, e)
  {
    CanonTransitive(e, a, b);
    CanonEqual(e, e);
    CanonEqual(a, a);
    CanonEqual(b, b);
    CanonFlip(e, a);
    assert IsCanonNext(m, e, e, a);
    assert IsCanonNext(m, e, a, b);
    assert IsCanonNext(m, e, b, e);
    assert forall n :: InChain(m, n) ==> IsLink(m, e, n, OfType(m[n], TYPE_NSEC));
  }

  /** The wildcard `w` stands in for `q` and does not have the type; its own NSEC, all that is sent, does not cover `q`. */
  ghost predicate NoDataUncovered(z: ZoneData, q: Name, w: Name, base: seq<RR>) {
    var m := Contents(z.tree);
    && Signed(m, z.origin) && Decides(m, z.origin, q, TYPE_A, Wild(w))
    && w in m && OfType(m[w], TYPE_A) == [] && OfType(m[w], TYPE_CNAME) == []
    && !Proves(base + NsecOf(m[w]), z.origin, q)
  }

  lemma WildcardIsUncovered(e: Name, w: Name, a: Name, q: Name, base: seq<RR>) returns (z: ZoneData)
    requires WildcardNames(e, w, a, q) && NoNsec(base)
    ensures InsertAll(Fresh(e), WithWildcard(e, w, a)) == Some(z) && z.origin == e && NoDataUncovered(z, q, w, base)
  {
    z := LoadFour(e, WithWildcard(e, w, a));
    var m := Contents(z.tree);
    WildcardRecords(m, e, w, a);
    WildcardDecides(m, e, w, a, q);
    ThreeSignedChain(m, e, w, a);
    NodeAloneProvesIff(m, e, q, w, base);
    assert InChain(m, a);
  }

  lemma WildcardRecords(m: Nodes, e: Name, w: Name, a: Name)
    requires FourRecords(m, WithWildcard(e, w, a)) && |e| == 1 && |w| == 2 && |a| == 2 && a != w
    ensures forall x :: x in m <==> x == e || x == w || x == a
    ensures LinksTo(m, e, w) && LinksTo(m, w, a) && LinksTo(m, a, e)
    ensures OfType(m[w], TYPE_A) == [] && OfType(m[w], TYPE_CNAME) == []
    ensures OfType(m[e], TYPE_DNAME) == [] && OfType(m[e], TYPE_NS) == []
  {
  }

  lemma WildcardDecides(m: Nodes, e: Name, w: Name, a: Name, q: Name)
    requires WildcardNames(e, w, a, q) && (forall x :: x in m <==> x == e || x == w || x == a)
    requires OfType(m[e], TYPE_DNAME) == [] && OfType(m[e], TYPE_NS) == []
    ensures Decides(m, e, q, TYPE_A, Wild(w)) && q !in m && InZone(m, e)
  {
    assert forall d: nat :: 1 <= d < 3 ==> !Stops(m, q, TYPE_A, d);
    assert StarBeside(m, q, 2) == Some(w);
    assert IsSub(e, e) by { assert e[0..] == e; }
  }

  /**
   * With the names `e`, `*.e` and `a.e` signed and loaded, `*.e` stands in for `b.e` and has no address; its NSEC does not
   * cover `b.e`, as section 3.1.3.4 of RFC 4035 asks.
   */
  lemma WildcardNoDataIsNotCovered(base: seq<RR>) returns (z: ZoneData)
    requires NoNsec(base)
    ensures InsertAll(Fresh([[101]]), WithWildcard([[101]], [STAR, [101]], [[97], [101]])) == Some(z) && z.origin == [[101]]
    ensures NoDataUncovered(z, [[98], [101]], [STAR, [101]], base)
  {
    WildcardNamed([101], [97], [98]);
    z := WildcardIsUncovered([[101]], [STAR, [101]], [[97], [101]], [[98], [101]], base);
  }

  lemma WildcardNamed(e: Label, a: Label, b: Label)
    requires Compare(STAR, a) < 0 && Compare(a, b) < 0 && b != STAR
    ensures WildcardNames([e], [STAR, e], [a, e], [b, e])
  {
    BesideLabel(b, e);
    RightBelow(STAR, e);
    RightBelow(a, e);
    RightBelow(b, e);
    PairOrder(STAR, a, e);
    PairOrder(a, b, e);
    CanonFlip([a, e], [STAR, e]);
    CanonEqual([a, e], [STAR, e]);
    CanonEqual([a, e], [b, e]);
  }
}
