/**
 * Signed denial: which NSEC records `Zone.Lookup` puts into the authority section of a negative answer, and exactly
 * when they prove what section 3.1.3.2 of RFC 4035 asks for.
 */
module Denial {
  import opened Names
  import opened Records
  import opened ZoneTree
  import opened Lookup
  import opened Resolution
  import opened Nsec
  import opened Options

  // ----- the closest encloser -----

  /** No suffix of `q` with more than `k` labels is stored. */
  ghost predicate NoneLonger(m: Nodes, q: Name, k: nat) {
    forall e: nat :: k < e <= |q| ==> Tail(q, e) !in m
  }

  /** The longest stored suffix of `q` has `d` labels. */
  ghost predicate IsLongestStored(m: Nodes, q: Name, d: nat) {
    d <= |q| && Tail(q, d) in m && NoneLonger(m, q, d)
  }

  /** What the closest-encloser loop returns: the longest stored suffix of two labels or more or, if there is none, the origin. */
  ghost predicate IsStoredEncloser(m: Nodes, origin: Name, q: Name, ce: Name) {
    || (exists d: nat :: IsLongestStored(m, q, d) && d >= 2 && ce == Tail(q, d))
    || (ce == origin && NoneLonger(m, q, 1))
  }

  ghost predicate IsStored(m: Nodes, g: Option<(Name, Elem)>) {
    g.Some? ==> g.value.0 in m && m[g.value.0] == g.value.1
  }

  lemma StripLabel(m: Nodes, qname: Name, q: Name)
    requires 1 < |q| <= |qname| && q == Tail(qname, |q|) && NoneLonger(m, qname, |q|) && q !in m
    ensures q[1..] == Tail(qname, |q| - 1) && NoneLonger(m, qname, |q| - 1)
  {
  }

  lemma StoredEncloser(m: Nodes, origin: Name, qname: Name, q: Name)
    requires 1 < |q| <= |qname| && q == Tail(qname, |q|) && NoneLonger(m, qname, |q|) && q in m
    ensures IsStoredEncloser(m, origin, qname, q)
  {
    assert IsLongestStored(m, qname, |q|);
  }

  /** `Zone.ClosestEncloser`: strip labels until a stored name or a single label is left, then fall back to the origin. */
  method ClosestEncloser(origin: Name, t: Tree, qname: Name) returns (r: Option<(Name, Elem)>)
    requires Ordered(t)
    ensures IsStored(Contents(t), r)
    ensures r.Some? ==> IsStoredEncloser(Contents(t), origin, qname, r.value.0)
    ensures r.None? ==> origin !in Contents(t) && NoneLonger(Contents(t), qname, 1)
  {
    ghost var m := Contents(t);
    var q := qname;
    while |q| > 1
      invariant |q| <= |qname| && q == Tail(qname, |q|) && NoneLonger(m, qname, |q|)
    {
      var elem := Get(t, q);
      if elem.Some? {
        StoredEncloser(m, origin, qname, q);
        return Some((q, elem.value));
      }
      StripLabel(m, qname, q);
      q := q[1..];
    }
    assert NoneLonger(m, qname, 1);
    var apex := Get(t, origin);
    if apex.Some? {
      return Some((origin, apex.value));
    }
    return None;
  }

  /**
   * The result is the longest stored suffix, for every query in a zone whose apex is stored, exactly when that suffix
   * is not a single label below a root origin.
   */
  lemma EncloserIsLongest(m: Nodes, origin: Name, q: Name, r: Name, d: nat)
    requires InZone(m, origin) && origin in m && IsSub(origin, q) && IsLongestStored(m, q, d) && IsStoredEncloser(m, origin, q, r)
    ensures r == Tail(q, d) <==> !(origin == [] && d == 1)
  {
    assert Tail(q, |origin|) == origin;
    assert d >= |origin|;
    if e: nat :| IsLongestStored(m, q, e) && e >= 2 && r == Tail(q, e) {
      assert e == d;
    } else {
      assert d <= 1;
      assert |r| == |origin| && |Tail(q, d)| == d;
    }
  }

  // ----- the negative answer -----

  /** The NSEC record of a node and the signatures over it. */
  function NsecOf(e: Elem): seq<RR> {
    TypeFromElem(e, TYPE_NSEC, true)
  }

  /** Records of a type and, if asked for, exactly the signatures over that type, as `typeFromElem` finds them. */
  lemma TypeFromElemIs(e: Elem, t: RType, do: bool)
    ensures TypeFromElem(e, t, do) == OfType(e, t) + (if do then Only(OfType(e, TYPE_RRSIG), SigOver(t)) else [])
  {
    SignaturesOnly(OfType(e, TYPE_RRSIG), t);
  }

  lemma NsecOfIs(e: Elem)
    ensures NsecOf(e) == OfType(e, TYPE_NSEC) + Only(OfType(e, TYPE_RRSIG), SigOver(TYPE_NSEC))
  {
    TypeFromElemIs(e, TYPE_NSEC, true);
  }

  /**
   * `g` is the node before the wildcard at the closest encloser, if both exist. At the root the code writes the wildcard as
   * `*..`, which is not a name, and any node may come out.
   */
  ghost predicate IsBeforeWildcard(m: Nodes, origin: Name, q: Name, g: Option<(Name, Elem)>) {
    || (g.None? && origin !in m)
    || exists ce :: ce in m && IsStoredEncloser(m, origin, q, ce) && (if ce == [] then IsStored(m, g) else IsFloor(m, [STAR] + ce, g))
  }

  /**
   * The authority section of a negative answer: `base`, then the NSEC of the node before the query name, and for a name
   * that does not exist also the NSEC of the node before the wildcard, if that is another node.
   */
  ghost predicate IsDenial(m: Nodes, origin: Name, q: Name, base: seq<RR>, nxdomain: bool, auth: seq<RR>) {
    exists f, g :: DenialFrom(m, origin, q, base, nxdomain, auth, f, g)
  }

  ghost predicate DenialFrom(m: Nodes, origin: Name, q: Name, base: seq<RR>, nxdomain: bool, auth: seq<RR>, f: Option<(Name, Elem)>, g: Option<(Name, Elem)>) {
    && IsFloor(m, q, f)
    && (if f.Some? && nxdomain then IsBeforeWildcard(m, origin, q, g) else g.None?)
    && auth == base
               + (if f.Some? then NsecOf(f.value.1) else [])
               + (if g.Some? && g.value.0 != f.value.0 then NsecOf(g.value.1) else [])
  }

  /** `Zone.Lookup`, lookup.go:254-283, for a query with the DO bit. `odd` is what the tree finds before `*..`. */
  method Deny(origin: Name, soa: seq<RR>, t: Tree, qname: Name, nxdomain: bool, odd: Option<(Name, Elem)>) returns (auth: seq<RR>)
    requires Ordered(t) && IsSub(origin, qname) && IsStored(Contents(t), odd)
    ensures IsDenial(Contents(t), origin, qname, soa, nxdomain, auth)
  {
    auth := soa;
    var deny := Prev(t, qname);
    ghost var g: Option<(Name, Elem)> := None;
    if deny.Some? {
      auth := auth + NsecOf(deny.value.1);
      if nxdomain {
        var more := DenyWildcard(origin, t, qname, deny.value.0, odd);
        g :| IsWildcardPart(Contents(t), origin, qname, deny.value.0, more, g);
        auth := auth + more;
      }
    }
    assert DenialFrom(Contents(t), origin, qname, soa, nxdomain, auth, deny, g);
  }

  /** The node `g` before the wildcard adds `more`, unless it is the node `deny`, which has been added. */
  ghost predicate IsWildcardPart(m: Nodes, origin: Name, q: Name, deny: Name, more: seq<RR>, g: Option<(Name, Elem)>) {
    IsBeforeWildcard(m, origin, q, g) && more == (if g.Some? && g.value.0 != deny then NsecOf(g.value.1) else [])
  }

  method DenyWildcard(origin: Name, t: Tree, qname: Name, deny: Name, odd: Option<(Name, Elem)>) returns (more: seq<RR>)
    requires Ordered(t) && IsSub(origin, qname) && IsStored(Contents(t), odd)
    ensures exists g :: IsWildcardPart(Contents(t), origin, qname, deny, more, g)
  {
    more := [];
    var ce := ClosestEncloser(origin, t, qname);
    if ce.None? {
      assert IsWildcardPart(Contents(t), origin, qname, deny, more, None);
      return;
    }
    assert IsStoredEncloser(Contents(t), origin, qname, ce.value.0);
    var ss := odd;
    if ce.value.0 != [] {
      ss := Prev(t, [STAR] + ce.value.0);
    }
    if ss.Some? && ss.value.0 != deny {
      more := NsecOf(ss.value.1);
    }
    assert IsWildcardPart(Contents(t), origin, qname, deny, more, ss);
  }

  // ----- what the negative answer proves -----

  ghost predicate NoNsec(rrs: seq<RR>) {
    forall rr :: rr in rrs ==> rr.rtype != TYPE_NSEC
  }

  /** Only the NSEC of a node can prove something, not its signatures. */
  lemma NodeProvesIff(m: Nodes, origin: Name, x: Name, n: Name)
    requires Signed(m, origin) && n in m && !InChain(m, x) && IsSub(origin, x)
    ensures Proves(NsecOf(m[n]), origin, x) <==> IsCanonPrev(m, x, n)
  {
    CoversIffPredecessor(m, origin, n, x);
    ProvesAppend(OfType(m[n], TYPE_NSEC), Signatures(OfType(m[n], TYPE_RRSIG), TYPE_NSEC), origin, x);
  }

  lemma ProvesAppend(a: seq<RR>, b: seq<RR>, origin: Name, x: Name)
    ensures Proves(a + b, origin, x) <==> Proves(a, origin, x) || Proves(b, origin, x)
  {
    assert forall rr :: rr in a + b <==> rr in a || rr in b;
  }

  /** The canonical predecessor of `x` is the tree's predecessor of `q` or of `w`. */
  ghost predicate AtHand(m: Nodes, q: Name, w: Name, x: Name) {
    exists n :: IsCanonPrev(m, x, n) && (IsTreePrev(m, q, n) || IsTreePrev(m, w, n))
  }

  lemma TreePrevUnique(m: Nodes, q: Name, a: Name, b: Name)
    requires IsTreePrev(m, q, a) && IsTreePrev(m, q, b)
    ensures a == b
  {
    TreeFlip(a, b);
    TreeEqual(a, b);
  }

  lemma AtHandIff(m: Nodes, q: Name, w: Name, x: Name, a: Name, b: Name)
    requires IsTreePrev(m, q, a) && IsTreePrev(m, w, b)
    ensures AtHand(m, q, w, x) <==> IsCanonPrev(m, x, a) || IsCanonPrev(m, x, b)
  {
    if AtHand(m, q, w, x) {
      var n :| IsCanonPrev(m, x, n) && (IsTreePrev(m, q, n) || IsTreePrev(m, w, n));
      if IsTreePrev(m, q, n) { TreePrevUnique(m, q, a, n); } else { TreePrevUnique(m, w, b, n); }
    }
  }

  /** The authority section proves exactly what the two NSECs in it can prove. */
  lemma DenialProvesIff(m: Nodes, origin: Name, q: Name, w: Name, base: seq<RR>, a: Name, b: Name, x: Name)
    requires Signed(m, origin) && NoNsec(base) && x !in m && IsSub(origin, x)
    requires IsTreePrev(m, q, a) && IsTreePrev(m, w, b)
    ensures Proves(base + NsecOf(m[a]) + (if b != a then NsecOf(m[b]) else []), origin, x) <==> AtHand(m, q, w, x)
  {
    var more := if b != a then NsecOf(m[b]) else [];
    ProvesAppend(base + NsecOf(m[a]), more, origin, x);
    ProvesAppend(base, NsecOf(m[a]), origin, x);
    NodeProvesIff(m, origin, x, a);
    NodeProvesIff(m, origin, x, b);
    AtHandIff(m, q, w, x, a, b);
  }

  /** When `NoName` is decided, the wildcard below the longest stored suffix is not stored. */
  lemma NoWildcardAtEncloser(m: Nodes, origin: Name, q: Name, qtype: RType, d: nat)
    requires Decides(m, origin, q, qtype, NoName) && IsSub(origin, q) && IsLongestStored(m, q, d) && |origin| <= d && d >= 1
    ensures d < |q| && StarBelow(q, d) !in m
  {
    TailSelf(q);
    WildSeenIsDeepest(m, q, |origin|, |q|);
    assert d < |q| ==> !Offers(m, q, d + 1);
  }

  lemma EncloserDenied(m: Nodes, origin: Name, q: Name, qtype: RType, ce: Name) returns (d: nat)
    requires origin != [] && origin in m && InZone(m, origin) && IsSub(origin, q)
    requires Decides(m, origin, q, qtype, NoName) && IsStoredEncloser(m, origin, q, ce)
    ensures IsLongestStored(m, q, d) && ce == Tail(q, d)
    ensures IsSub(origin, [STAR] + ce) && [STAR] + ce !in m
  {
    d := LongestStored(m, origin, q, |q|);
    assert ce == Tail(q, d) by { EncloserIsLongest(m, origin, q, ce, d); }
    assert [STAR] + ce !in m by { NoWildcardAtEncloser(m, origin, q, qtype, d); }
    StarIsSub(origin, ce);
  }

  lemma StarIsSub(origin: Name, ce: Name)
    requires IsSub(origin, ce)
    ensures IsSub(origin, [STAR] + ce)
  {
    assert ([STAR] + ce)[|ce| + 1 - |origin|..] == ce[|ce| - |origin|..];
  }

  lemma {:induction false} LongestStored(m: Nodes, origin: Name, q: Name, d: nat) returns (e: nat)
    requires IsSub(origin, q) && origin in m && |origin| <= d <= |q|
    requires forall f: nat :: d < f <= |q| ==> Tail(q, f) !in m
    ensures IsLongestStored(m, q, e) && |origin| <= e
    decreases d
  {
    if Tail(q, d) in m {
      e := d;
    } else {
      assert Tail(q, |origin|) == origin;
      e := LongestStored(m, origin, q, d - 1);
    }
  }

  /** The query name and the wildcard below its longest stored suffix are both proved absent. */
  ghost predicate FullProof(m: Nodes, origin: Name, q: Name, auth: seq<RR>) {
    Proves(auth, origin, q) && forall d: nat :: IsLongestStored(m, q, d) ==> Proves(auth, origin, StarBelow(q, d))
  }

  /** Both canonical predecessors are among the two tree predecessors. */
  ghost predicate BothAtHand(m: Nodes, q: Name) {
    forall d: nat :: IsLongestStored(m, q, d) ==> AtHand(m, q, StarBelow(q, d), q) && AtHand(m, q, StarBelow(q, d), StarBelow(q, d))
  }

  lemma LongestUnique(m: Nodes, q: Name, d: nat)
    requires IsLongestStored(m, q, d)
    ensures forall e: nat :: IsLongestStored(m, q, e) ==> e == d
  {
  }

  /**
   * A signed NXDOMAIN from a signed zone below the root is a full proof, as section 3.1.3.2 of RFC 4035 asks, if and only
   * if the canonical predecessors of the query name and of the wildcard are both among the two nodes that the tree offers.
   */
  lemma NxdomainIsProvedIff(m: Nodes, origin: Name, q: Name, qtype: RType, base: seq<RR>, auth: seq<RR>)
    requires origin != [] && Signed(m, origin) && IsSub(origin, q) && Decides(m, origin, q, qtype, NoName)
    requires NoNsec(base) && IsDenial(m, origin, q, base, true, auth)
    ensures FullProof(m, origin, q, auth) <==> BothAtHand(m, q)
  {
    var d, a, b := DenialParts(m, origin, q, qtype, base, auth);
    TwoNsecsProveIff(m, origin, q, base, auth, d, a, b);
  }

  lemma DenialParts(m: Nodes, origin: Name, q: Name, qtype: RType, base: seq<RR>, auth: seq<RR>)
    returns (d: nat, a: Name, b: Name)
    requires origin != [] && InZone(m, origin) && origin in m && IsSub(origin, q) && Decides(m, origin, q, qtype, NoName)
    requires IsDenial(m, origin, q, base, true, auth)
    ensures IsLongestStored(m, q, d) && IsTreePrev(m, q, a) && IsTreePrev(m, StarBelow(q, d), b)
    ensures StarBelow(q, d) !in m && IsSub(origin, StarBelow(q, d)) && q !in m
    ensures auth == base + NsecOf(m[a]) + (if b != a then NsecOf(m[b]) else [])
  {
    var f, g :| DenialFrom(m, origin, q, base, true, auth, f, g);
    PrevExists(m, origin, q, f);
    var ce :| ce in m && IsStoredEncloser(m, origin, q, ce) && (if ce == [] then IsStored(m, g) else IsFloor(m, [STAR] + ce, g));
    assert ce != [] by { assert IsSub(origin, ce); }
    d := EncloserDenied(m, origin, q, qtype, ce);
    PrevExists(m, origin, [STAR] + ce, g);
    a, b := f.value.0, g.value.0;
  }

  lemma TwoNsecsProveIff(m: Nodes, origin: Name, q: Name, base: seq<RR>, auth: seq<RR>, d: nat, a: Name, b: Name)
    requires Signed(m, origin) && NoNsec(base) && q !in m && IsSub(origin, q)
    requires IsLongestStored(m, q, d) && StarBelow(q, d) !in m && IsSub(origin, StarBelow(q, d))
    requires IsTreePrev(m, q, a) && IsTreePrev(m, StarBelow(q, d), b)
    requires auth == base + NsecOf(m[a]) + (if b != a then NsecOf(m[b]) else [])
    ensures FullProof(m, origin, q, auth) <==> BothAtHand(m, q)
  {
    var w := StarBelow(q, d);
    assert Proves(auth, origin, q) <==> AtHand(m, q, w, q) by { DenialProvesIff(m, origin, q, w, base, a, b, q); }
    assert Proves(auth, origin, w) <==> AtHand(m, q, w, w) by { DenialProvesIff(m, origin, q, w, base, a, b, w); }
    LongestDecides(m, origin, q, auth, d);
  }

  /** The query name alone, at its longest stored suffix. */
  lemma NameProvedIff(m: Nodes, origin: Name, q: Name, qtype: RType, base: seq<RR>, auth: seq<RR>) returns (d: nat)
    requires origin != [] && Signed(m, origin) && IsSub(origin, q) && Decides(m, origin, q, qtype, NoName)
    requires NoNsec(base) && IsDenial(m, origin, q, base, true, auth)
    ensures IsLongestStored(m, q, d) && (Proves(auth, origin, q) <==> AtHand(m, q, StarBelow(q, d), q))
  {
    var a, b;
    d, a, b := DenialParts(m, origin, q, qtype, base, auth);
    DenialProvesIff(m, origin, q, StarBelow(q, d), base, a, b, q);
  }

  /** There is only one longest stored suffix. */
  lemma LongestDecides(m: Nodes, origin: Name, q: Name, auth: seq<RR>, d: nat)
    requires IsLongestStored(m, q, d)
    ensures FullProof(m, origin, q, auth) <==> Proves(auth, origin, q) && Proves(auth, origin, StarBelow(q, d))
    ensures BothAtHand(m, q) <==> AtHand(m, q, StarBelow(q, d), q) && AtHand(m, q, StarBelow(q, d), StarBelow(q, d))
  {
    LongestUnique(m, q, d);
  }

  /** The tree's predecessor of `x` is in the chain, and the tree orders no names around it differently from RFC 4034. */
  ghost predicate Orderly(m: Nodes, x: Name) {
    Uninverted(m, x) && exists n :: IsTreePrev(m, x, n) && InChain(m, n)
  }

  ghost predicate AllOrderly(m: Nodes, q: Name) {
    Orderly(m, q) && forall d: nat :: IsLongestStored(m, q, d) ==> Orderly(m, StarBelow(q, d))
  }

  /** Where the query name and the wildcard are orderly, the denial is a full proof. */
  lemma OrderlyIsAtHand(m: Nodes, origin: Name, q: Name, qtype: RType)
    requires origin != [] && origin in m && IsSub(origin, q) && Decides(m, origin, q, qtype, NoName) && AllOrderly(m, q)
    ensures BothAtHand(m, q)
  {
    var d := LongestStored(m, origin, q, |q|);
    var w := StarBelow(q, d);
    NoWildcardAtEncloser(m, origin, q, qtype, d);
    var a :| IsTreePrev(m, q, a) && InChain(m, a);
    var b :| IsTreePrev(m, w, b) && InChain(m, b);
    TreePrevIsCanonIff(m, q, a);
    TreePrevIsCanonIff(m, w, b);
    LongestUnique(m, q, d);
  }

  // ----- one NSEC -----

  /** The section proves `q` absent exactly when the tree's predecessor of `q` is in the chain and no name of it is misplaced. */
  ghost predicate ProvedByPrev(m: Nodes, origin: Name, q: Name, auth: seq<RR>) {
    exists n :: IsTreePrev(m, q, n) && (Proves(auth, origin, q) <==> NoneMisplaced(m, n, q))
  }

  /** For a type that the wildcard does not have only its own NSEC is sent. */
  lemma NodeAloneProvesIff(m: Nodes, origin: Name, q: Name, w: Name, base: seq<RR>)
    requires Signed(m, origin) && w in m && q !in m && IsSub(origin, q) && NoNsec(base)
    ensures Proves(base + NsecOf(m[w]), origin, q) <==> IsCanonPrev(m, q, w)
  {
    ProvesAppend(base, NsecOf(m[w]), origin, q);
    NodeProvesIff(m, origin, q, w);
  }

  /**
   * The single NSEC of a wildcard answer, or of an empty non-terminal, covers the query name if and only if the node it is
   * taken from is in the chain and no name of the chain is misplaced around the query name.
   */
  lemma OneNsecProvesIff(m: Nodes, origin: Name, q: Name, base: seq<RR>, auth: seq<RR>)
    requires origin != [] && Signed(m, origin) && q !in m && IsSub(origin, q) && NoNsec(base)
    requires IsDenial(m, origin, q, base, false, auth)
    ensures ProvedByPrev(m, origin, q, auth)
  {
    var f, g :| DenialFrom(m, origin, q, base, false, auth, f, g);
    PrevExists(m, origin, q, f);
    var n := f.value.0;
    assert IsTreePrev(m, q, n);
    ProvesAppend(base, NsecOf(m[n]), origin, q);
    assert auth == base + NsecOf(m[n]) + [] == base + NsecOf(m[n]);
    NodeProvesIff(m, origin, q, n);
    TreePrevIsCanonIff(m, q, n);
  }
}
