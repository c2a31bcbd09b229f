/**
 * The NSEC chain of a signed zone: which name a record covers, and when the node that the tree finds before a missing name
 * holds the record that covers it. The chain is in canonical order, the tree is searched in its own order, and the two
 * differ on labels such as `a` and `a-b`.
 */
module Nsec {
  import opened Names
  import opened Records
  import opened ZoneTree
  import opened Lookup
  import opened Resolution
  import opened Options

  /** The name has an NSEC record. Names below a zone cut have none. */
  predicate InChain(m: Nodes, n: Name) {
    n in m && OfType(m[n], TYPE_NSEC) != []
  }

  /** `nx` follows `n` in the chain in canonical order, the last name being followed by the apex. */
  ghost predicate IsCanonNext(m: Nodes, origin: Name, n: Name, nx: Name) {
    || (InChain(m, nx) && CanonCmp(n, nx) < 0 && forall x :: InChain(m, x) && CanonCmp(n, x) < 0 ==> CanonCmp(nx, x) <= 0)
    || (nx == origin && forall x :: InChain(m, x) ==> CanonCmp(x, n) <= 0)
  }

  /** The apex is in the chain, and the records of the chain, one for each of its names, link the names in canonical order. */
  ghost predicate NsecChain(m: Nodes, origin: Name) {
    && InChain(m, origin)
    && forall n :: InChain(m, n) ==> IsLink(m, origin, n, OfType(m[n], TYPE_NSEC))
  }

  ghost predicate Signed(m: Nodes, origin: Name) {
    InZone(m, origin) && NsecChain(m, origin)
  }

  ghost predicate IsLink(m: Nodes, origin: Name, n: Name, rrs: seq<RR>) {
    |rrs| == 1 && rrs[0].owner == n && rrs[0].rtype == TYPE_NSEC && rrs[0].data.NextOwner? && IsCanonNext(m, origin, n, rrs[0].data.next)
  }

  /** `q` falls into the gap of the NSEC record; the last record of the chain points back to the apex. */
  ghost predicate NsecCovers(rr: RR, origin: Name, q: Name) {
    && rr.rtype == TYPE_NSEC && rr.data.NextOwner?
    && CanonCmp(rr.owner, q) < 0
    && (CanonCmp(q, rr.data.next) < 0 || rr.data.next == origin)
  }

  /** Some record of the list proves that `q` does not exist. */
  ghost predicate Proves(rrs: seq<RR>, origin: Name, q: Name) {
    exists rr :: rr in rrs && NsecCovers(rr, origin, q)
  }

  lemma CanonOrder(a: Name, b: Name, c: Name)
    ensures CanonCmp(a, b) == -CanonCmp(b, a)
    ensures CanonCmp(a, b) == 0 <==> a == b
    ensures CanonCmp(a, b) <= 0 && CanonCmp(b, c) <= 0 ==> CanonCmp(a, c) <= 0
    ensures CanonCmp(a, b) < 0 && CanonCmp(b, c) <= 0 ==> CanonCmp(a, c) < 0
    ensures CanonCmp(a, b) <= 0 && CanonCmp(b, c) < 0 ==> CanonCmp(a, c) < 0
  {
    CanonFlip(a, b);
    CanonEqual(a, b);
    CanonEqual(b, c);
    if CanonCmp(a, b) < 0 && CanonCmp(b, c) < 0 { CanonTransitive(a, b, c); }
  }

  /** `n` is the last name of the chain before `q` in canonical order. */
  ghost predicate IsCanonPrev(m: Nodes, q: Name, n: Name) {
    InChain(m, n) && CanonCmp(n, q) < 0 && forall x :: InChain(m, x) && CanonCmp(x, q) < 0 ==> CanonCmp(x, n) <= 0
  }

  lemma LinkCoversIff(m: Nodes, origin: Name, n: Name, q: Name)
    requires Signed(m, origin) && InChain(m, n) && !InChain(m, q) && IsSub(origin, q)
    ensures |OfType(m[n], TYPE_NSEC)| == 1
    ensures NsecCovers(OfType(m[n], TYPE_NSEC)[0], origin, q) <==> IsCanonPrev(m, q, n)
  {
    var rr := OfType(m[n], TYPE_NSEC)[0];
    assert IsLink(m, origin, n, OfType(m[n], TYPE_NSEC));
    var nx := rr.data.next;
    CanonAncestorFirst(origin, n);
    CanonOrder(origin, n, n);
    if NsecCovers(rr, origin, q) {
      forall x | InChain(m, x) && CanonCmp(x, q) < 0
        ensures CanonCmp(x, n) <= 0
      {
        CanonOrder(n, x, q);
        CanonOrder(x, n, q);
        CanonOrder(nx, x, q);
        CanonOrder(q, nx, x);
      }
    }
    if CanonCmp(n, q) < 0 && (forall x :: InChain(m, x) && CanonCmp(x, q) < 0 ==> CanonCmp(x, n) <= 0) {
      CanonOrder(nx, q, q);
      CanonOrder(nx, n, n);
      CanonOrder(n, nx, nx);
    }
  }

  /** What a node holds proves a name of the zone absent exactly when the node is the name's canonical predecessor in the chain. */
  lemma CoversIffPredecessor(m: Nodes, origin: Name, n: Name, q: Name)
    requires Signed(m, origin) && n in m && !InChain(m, q) && IsSub(origin, q)
    ensures Proves(OfType(m[n], TYPE_NSEC), origin, q) <==> IsCanonPrev(m, q, n)
  {
    if InChain(m, n) {
      LinkCoversIff(m, origin, n, q);
      assert OfType(m[n], TYPE_NSEC)[0] in OfType(m[n], TYPE_NSEC);
    }
  }

  /**
   * A name `x` of the chain that keeps the tree's predecessor `n` of `q` from being the canonical one: either `n` itself is
   * inverted against `q`, or `x` is inverted against one of them and sorts canonically between the two.
   */
  ghost predicate Misplaced(n: Name, q: Name, x: Name) {
    if x == n then Inverted(n, q)
    else (Inverted(x, q) || Inverted(x, n)) && CanonCmp(n, x) < 0 && CanonCmp(x, q) < 0
  }

  /** The node is in the chain, and no name of the chain is misplaced around `q`. */
  ghost predicate NoneMisplaced(m: Nodes, n: Name, q: Name) {
    InChain(m, n) && forall x :: InChain(m, x) ==> !Misplaced(n, q, x)
  }

  /** `n` is the last stored name not after `q` in the tree's order. */
  ghost predicate IsTreePrev(m: Nodes, q: Name, n: Name) {
    n in m && IsFloor(m, q, Some((n, m[n])))
  }

  lemma PrevExists(m: Nodes, origin: Name, q: Name, f: Option<(Name, Elem)>)
    requires IsSub(origin, q) && IsFloor(m, q, f)
    ensures origin in m && origin != [] ==> f.Some?
  {
    if origin != [] {
      TreeAncestorFirst(origin, q);
      TreeFlip(origin, q);
    }
  }

  /**
   * What the tree's predecessor of `q` holds proves `q` absent exactly when that node is in the chain and no name of the
   * chain is misplaced around `q`.
   */
  lemma PrevCovers(m: Nodes, origin: Name, q: Name, f: Option<(Name, Elem)>)
    requires Signed(m, origin) && q !in m && IsSub(origin, q) && IsFloor(m, q, f)
    ensures origin != [] ==> f.Some?
    ensures f.Some? ==> (Proves(OfType(f.value.1, TYPE_NSEC), origin, q) <==> NoneMisplaced(m, f.value.0, q))
  {
    PrevExists(m, origin, q, f);
    if f.Some? {
      CoversIffPredecessor(m, origin, f.value.0, q);
      TreePrevIsCanonIff(m, q, f.value.0);
    }
  }

  lemma TreePrevIsCanonIff(m: Nodes, q: Name, n: Name)
    requires q !in m && IsTreePrev(m, q, n)
    ensures IsCanonPrev(m, q, n) <==> NoneMisplaced(m, n, q)
  {
    TreeEqual(n, q);
    TreeOrderIsCanonical(n, q);
    CanonOrder(n, q, q);
    forall x | x in m
      ensures Misplaced(n, q, x) <==> (x == n && CanonCmp(n, q) > 0) || (CanonCmp(n, x) < 0 && CanonCmp(x, q) < 0)
    {
      MisplacedMeans(m, q, n, x);
    }
    forall x | x in m && CanonCmp(x, q) < 0
      ensures CanonCmp(x, n) <= 0 <==> !(CanonCmp(n, x) < 0)
    {
      CanonOrder(x, n, n);
    }
  }

  lemma MisplacedMeans(m: Nodes, q: Name, n: Name, x: Name)
    requires x in m && q !in m && n in m && TreeCmp(n, q) < 0 && (TreeCmp(x, q) <= 0 ==> TreeCmp(x, n) <= 0)
    ensures Misplaced(n, q, x) <==> (x == n && CanonCmp(n, q) > 0) || (CanonCmp(n, x) < 0 && CanonCmp(x, q) < 0)
  {
    var tq, cq, tn, cn := TreeCmp(x, q), CanonCmp(x, q), TreeCmp(x, n), CanonCmp(x, n);
    assert tq == cq <==> !Inverted(x, q) by { TreeOrderIsCanonical(x, q); }
    assert tn == cn <==> !Inverted(x, n) by { TreeOrderIsCanonical(x, n); }
    assert tq != 0 && cq != 0 by { TreeEqual(x, q); CanonEqual(x, q); }
    assert CanonCmp(n, x) == -cn by { CanonFlip(n, x); }
    assert (tn == 0 <==> x == n) && (cn == 0 <==> x == n) by { TreeEqual(x, n); CanonEqual(x, n); }
  }

  /** The tree orders none of the chain's names and `q` differently from RFC 4034. */
  ghost predicate Uninverted(m: Nodes, q: Name) {
    && (forall x :: InChain(m, x) ==> !Inverted(x, q))
    && (forall x, y :: InChain(m, x) && InChain(m, y) ==> !Inverted(x, y))
  }

  /** Then only a node outside the chain can be in the way. */
  lemma PrevCoversUninverted(m: Nodes, origin: Name, q: Name, f: Option<(Name, Elem)>)
    requires Signed(m, origin) && q !in m && IsSub(origin, q) && IsFloor(m, q, f) && Uninverted(m, q)
    ensures origin != [] ==> f.Some?
    ensures f.Some? ==> (Proves(OfType(f.value.1, TYPE_NSEC), origin, q) <==> InChain(m, f.value.0))
  {
    PrevCovers(m, origin, q, f);
  }
}
