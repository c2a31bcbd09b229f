/**
 * What an authoritative server has to decide, stated without a loop, and exactly when `Zone.Lookup` decides it.
 * The tree stores no empty non-terminals, so the loop can take a wildcard that an empty non-terminal should block.
 */
module Resolution {
  import opened Names
  import opened Records
  import opened Lookup
  import opened Zones
  import opened ZoneTree
  import opened Options

  /** A name exists when it is the apex or when some stored name lies at or below it (section 2.2.2 of RFC 4592). */
  ghost predicate Exists(m: Nodes, origin: Name, n: Name) {
    n == origin || HasBelow(m, n)
  }

  /** The closest encloser of `q` has `d` labels. */
  ghost predicate IsEncloser(m: Nodes, origin: Name, q: Name, d: nat) {
    && |origin| <= d <= |q|
    && Exists(m, origin, Tail(q, d))
    && forall e: nat :: d < e <= |q| ==> !Exists(m, origin, Tail(q, e))
  }

  function StarBelow(q: Name, d: nat): Name
    requires d <= |q|
  {
    [STAR] + Tail(q, d)
  }

  /** A DNAME strictly above `q`. */
  ghost predicate RfcRedirect(m: Nodes, q: Name, d: nat) {
    d < |q| && Tail(q, d) in m && OfType(m[Tail(q, d)], TYPE_DNAME) != []
  }

  /** A zone cut below the apex, where a DS question for the cut itself is not cut off. */
  ghost predicate RfcCut(m: Nodes, origin: Name, q: Name, qtype: RType, d: nat) {
    |origin| < d <= |q| && Tail(q, d) in m && OfType(m[Tail(q, d)], TYPE_NS) != [] && (qtype == TYPE_DS ==> d < |q|)
  }

  ghost predicate RfcStops(m: Nodes, origin: Name, q: Name, qtype: RType, d: nat) {
    RfcRedirect(m, q, d) || RfcCut(m, origin, q, qtype, d)
  }

  ghost predicate RfcTopStop(m: Nodes, origin: Name, q: Name, qtype: RType, d: nat) {
    && |origin| <= d <= |q|
    && RfcStops(m, origin, q, qtype, d)
    && forall e: nat :: |origin| <= e < d ==> !RfcStops(m, origin, q, qtype, e)
  }

  ghost predicate RfcUndivided(m: Nodes, origin: Name, q: Name, qtype: RType) {
    forall e: nat :: |origin| <= e <= |q| ==> !RfcStops(m, origin, q, qtype, e)
  }

  /** `w` is the asterisk label below the closest encloser, and the encloser is not `q` itself. */
  ghost predicate IsSourceOfSynthesis(m: Nodes, origin: Name, q: Name, w: Name) {
    exists d: nat :: IsEncloser(m, origin, q, d) && d < |q| && w == StarBelow(q, d)
  }

  /** Section 4.3.2 of RFC 1034 with section 3.3 of RFC 4592 for wildcards and section 3.2 of RFC 6672 for DNAME. */
  ghost predicate Resolves(m: Nodes, origin: Name, q: Name, qtype: RType, o: Outcome) {
    match o
    case Redirect(n) => exists d: nat :: RfcTopStop(m, origin, q, qtype, d) && n == Tail(q, d) && RfcRedirect(m, q, d)
    case Referral(n) => exists d: nat :: RfcTopStop(m, origin, q, qtype, d) && n == Tail(q, d) && !RfcRedirect(m, q, d)
    case Found(n) => RfcUndivided(m, origin, q, qtype) && n == q && q in m
    case Wild(w) => RfcUndivided(m, origin, q, qtype) && w in m && IsSourceOfSynthesis(m, origin, q, w)
    case EmptyNonTerminal => RfcUndivided(m, origin, q, qtype) && q !in m && Exists(m, origin, q)
    case NoName =>
      && RfcUndivided(m, origin, q, qtype)
      && !Exists(m, origin, q)
      && forall d: nat :: IsEncloser(m, origin, q, d) ==> StarBelow(q, d) !in m
  }

  ghost predicate InZone(m: Nodes, origin: Name) {
    forall x :: x in m ==> IsSub(origin, x)
  }

  /** The NS records of the apex are kept beside the tree, never in it. */
  ghost predicate ApexApart(m: Nodes, origin: Name) {
    origin in m ==> OfType(m[origin], TYPE_NS) == []
  }

  /** Every zone that `Insert` builds keeps its apex NS records apart. */
  lemma BuiltApexApart(z: ZoneData)
    requires Built(z)
    ensures ApexApart(Contents(z.tree), z.origin)
  {
    var rrs := At(z, z.origin, TYPE_NS);
    assert rrs == [] || rrs[0] in rrs;
    assert InPlace(rrs, z.origin, z.origin, TYPE_NS);
  }

  ghost predicate AncestorClosed(m: Nodes, origin: Name) {
    forall x, k: nat :: x in m && |origin| < k <= |x| ==> Tail(x, k) in m
  }

  // ----- the specification is a function of the query -----

  lemma EncloserUnique(m: Nodes, origin: Name, q: Name, d: nat, e: nat)
    requires IsEncloser(m, origin, q, d) && IsEncloser(m, origin, q, e)
    ensures d == e
  {
  }

  lemma TopStopUnique(m: Nodes, origin: Name, q: Name, qtype: RType, d: nat, e: nat)
    requires RfcTopStop(m, origin, q, qtype, d) && RfcTopStop(m, origin, q, qtype, e)
    ensures d == e
  {
  }

  lemma TailSelf(q: Name)
    ensures Tail(q, |q|) == q
  {
  }

  /** At most one outcome resolves a query. */
  lemma ResolvesUnique(m: Nodes, origin: Name, q: Name, qtype: RType, a: Outcome, b: Outcome)
    requires IsSub(origin, q) && Resolves(m, origin, q, qtype, a) && Resolves(m, origin, q, qtype, b)
    ensures a == b
  {
    TailSelf(q);
    if a.Redirect? || a.Referral? {
      var d: nat :| RfcTopStop(m, origin, q, qtype, d) && a.node == Tail(q, d) && IsRedirect(m, q, d) == a.Redirect?;
      assert !RfcUndivided(m, origin, q, qtype);
      var e: nat :| RfcTopStop(m, origin, q, qtype, e) && b.node == Tail(q, e) && IsRedirect(m, q, e) == b.Redirect?;
      TopStopUnique(m, origin, q, qtype, d, e);
    } else {
      assert !b.Redirect? && !b.Referral?;
      if a.Wild? {
        WildAlone(m, origin, q, qtype, a, b);
      } else if b.Wild? {
        WildAlone(m, origin, q, qtype, b, a);
      } else {
        assert q in m ==> HasBelow(m, q);
      }
    }
  }

  lemma WildAlone(m: Nodes, origin: Name, q: Name, qtype: RType, w: Outcome, b: Outcome)
    requires IsSub(origin, q) && w.Wild? && !b.Redirect? && !b.Referral?
    requires Resolves(m, origin, q, qtype, w) && Resolves(m, origin, q, qtype, b)
    ensures w == b
  {
    var d: nat :| IsEncloser(m, origin, q, d) && d < |q| && w.node == StarBelow(q, d);
    TailSelf(q);
    assert !Exists(m, origin, q);
    assert q in m ==> HasBelow(m, q);
    if b.Wild? {
      var e: nat :| IsEncloser(m, origin, q, e) && e < |q| && b.node == StarBelow(q, e);
      EncloserUnique(m, origin, q, d, e);
    }
  }

  // ----- the wildcard the loop picks -----

  /** Depth `e` offers a wildcard to the loop: the name is missing and a wildcard sits beside it, not at the top level. */
  ghost predicate Offers(m: Nodes, q: Name, e: nat)
    requires e <= |q|
  {
    e >= 2 && Tail(q, e) !in m && StarBelow(q, e - 1) in m
  }

  lemma AsteriskIsStarBelow(q: Name, e: nat)
    requires 2 <= e <= |q|
    ensures AsteriskLabel(Tail(q, e)) == Some(StarBelow(q, e - 1))
  {
    assert Tail(q, e)[1..] == Tail(q, e - 1);
  }

  /** The loop ends up with the deepest wildcard on offer. */
  lemma {:induction false} WildSeenIsDeepest(m: Nodes, q: Name, lo: nat, d: int)
    requires d <= |q|
    ensures WildSeen(m, q, lo, d).None? ==> forall e: nat :: lo <= e <= d ==> !Offers(m, q, e)
    ensures WildSeen(m, q, lo, d).Some? ==> exists e: nat :: IsDeepestOffer(m, q, lo, d, e) && WildSeen(m, q, lo, d).value == StarBelow(q, e - 1)
    decreases d
  {
    if d >= lo {
      if d >= 2 { AsteriskIsStarBelow(q, d); }
      WildSeenIsDeepest(m, q, lo, d - 1);
      if Offers(m, q, d) {
        assert IsDeepestOffer(m, q, lo, d, d);
      } else if WildSeen(m, q, lo, d - 1).Some? {
        var e: nat :| IsDeepestOffer(m, q, lo, d - 1, e) && WildSeen(m, q, lo, d - 1).value == StarBelow(q, e - 1);
        assert IsDeepestOffer(m, q, lo, d, e);
      }
    }
  }

  ghost predicate IsDeepestOffer(m: Nodes, q: Name, lo: nat, d: int, e: nat)
    requires d <= |q|
  {
    lo <= e <= d && Offers(m, q, e) && forall f: nat :: e < f <= d ==> !Offers(m, q, f)
  }

  // ----- exactly when the loop resolves -----

  /**
   * The condition on the zone and the query name. Only a query for a name that is not stored and has no cut above it
   * can fail, and then in one of three ways: the apex is asked for and no stored name follows it; the wildcard of the closest
   * encloser is the top-level `*`; or there is no wildcard at the closest encloser and some empty non-terminal on the
   * path has a wildcard beside it.
   */
  ghost predicate WildcardRuleSafe(m: Nodes, origin: Name, q: Name, d: nat) {
    if d < |q| && StarBelow(q, d) in m then d >= 1
    else forall e: nat :: |origin| < e <= d && e <= |q| ==> !Offers(m, q, e)
  }

  ghost predicate Faithful(m: Nodes, origin: Name, q: Name, qtype: RType) {
    RfcUndivided(m, origin, q, qtype) && q !in m ==>
      && (q == origin ==> HasAfter(m, q))
      && forall d: nat :: IsEncloser(m, origin, q, d) ==> WildcardRuleSafe(m, origin, q, d)
  }

  lemma {:induction false} EncloserExists(m: Nodes, origin: Name, q: Name, d: nat) returns (e: nat)
    requires IsSub(origin, q) && |origin| <= d <= |q|
    requires forall f: nat :: d < f <= |q| ==> !Exists(m, origin, Tail(q, f))
    ensures IsEncloser(m, origin, q, e)
    decreases d
  {
    if Exists(m, origin, Tail(q, d)) {
      e := d;
    } else {
      assert Tail(q, |origin|) == origin;
      e := EncloserExists(m, origin, q, d - 1);
    }
  }

  lemma StopsAgree(m: Nodes, origin: Name, q: Name, qtype: RType, d: nat)
    requires IsSub(origin, q) && ApexApart(m, origin) && |origin| <= d <= |q|
    ensures RfcStops(m, origin, q, qtype, d) == Stops(m, q, qtype, d)
  {
    if d == |origin| { assert Tail(q, d) == origin; }
  }

  lemma NoOfferAtApex(m: Nodes, origin: Name, q: Name)
    requires InZone(m, origin) && IsSub(origin, q)
    ensures !Offers(m, q, |origin|)
  {
    var e := |origin|;
    assert Tail(q, e) == origin;
    if e >= 2 {
      var w := StarBelow(q, e - 1);
      assert |w| == e && w[0..] == w;
    }
  }

  lemma OfferExists(m: Nodes, origin: Name, q: Name, e: nat)
    requires e <= |q| && Offers(m, q, e)
    ensures Exists(m, origin, Tail(q, e - 1))
  {
    var w := StarBelow(q, e - 1);
    assert w[|w| - (e - 1)..] == Tail(q, e - 1);
    assert IsSub(Tail(q, e - 1), w);
  }

  lemma NextCloserMissing(m: Nodes, origin: Name, q: Name, d: nat)
    requires IsEncloser(m, origin, q, d)
    ensures d < |q| ==> Tail(q, d + 1) !in m
  {
    if d < |q| && Tail(q, d + 1) in m {
      assert IsSub(Tail(q, d + 1), Tail(q, d + 1));
    }
  }

  /** The wildcard seen is the encloser's own or lies above it; at the apex depth none is on offer. */
  lemma OfferSeen(m: Nodes, origin: Name, q: Name, d: nat) returns (e: nat)
    requires InZone(m, origin) && IsSub(origin, q) && IsEncloser(m, origin, q, d) && WildSeen(m, q, |origin|, |q|).Some?
    ensures IsDeepestOffer(m, q, |origin|, |q|, e) && |origin| < e <= d + 1
    ensures WildSeen(m, q, |origin|, |q|).value == StarBelow(q, e - 1)
  {
    WildSeenIsDeepest(m, q, |origin|, |q|);
    e :| IsDeepestOffer(m, q, |origin|, |q|, e) && WildSeen(m, q, |origin|, |q|).value == StarBelow(q, e - 1);
    NoOfferAtApex(m, origin, q);
    OfferExists(m, origin, q, e);
  }

  /** When nothing stops the walk and `q` is not stored, the outcome follows the closest encloser exactly under the condition. */
  lemma FallbackResolves(m: Nodes, origin: Name, q: Name, qtype: RType, o: Outcome, d: nat)
    requires InZone(m, origin) && ApexApart(m, origin) && IsSub(origin, q)
    requires RfcUndivided(m, origin, q, qtype) && q !in m && IsEncloser(m, origin, q, d)
    requires var w := WildSeen(m, q, |origin|, |q|); o == if w.Some? then Wild(w.value) else if HasAfter(m, q) then EmptyNonTerminal else NoName
    ensures Resolves(m, origin, q, qtype, o) <==> (q == origin ==> HasAfter(m, q)) && WildcardRuleSafe(m, origin, q, d)
  {
    if WildSeen(m, q, |origin|, |q|).Some? {
      FallbackSeen(m, origin, q, qtype, d);
    } else {
      FallbackUnseen(m, origin, q, qtype, o, d);
    }
  }

  lemma FallbackSeen(m: Nodes, origin: Name, q: Name, qtype: RType, d: nat)
    requires InZone(m, origin) && IsSub(origin, q) && RfcUndivided(m, origin, q, qtype) && IsEncloser(m, origin, q, d)
    requires WildSeen(m, q, |origin|, |q|).Some?
    ensures q != origin
    ensures Resolves(m, origin, q, qtype, Wild(WildSeen(m, q, |origin|, |q|).value)) <==> WildcardRuleSafe(m, origin, q, d)
  {
    NextCloserMissing(m, origin, q, d);
    var e := OfferSeen(m, origin, q, d);
    FallbackWild(m, origin, q, qtype, d, e);
  }

  lemma FallbackUnseen(m: Nodes, origin: Name, q: Name, qtype: RType, o: Outcome, d: nat)
    requires InZone(m, origin) && IsSub(origin, q) && RfcUndivided(m, origin, q, qtype) && q !in m && IsEncloser(m, origin, q, d)
    requires WildSeen(m, q, |origin|, |q|).None? && o == (if HasAfter(m, q) then EmptyNonTerminal else NoName)
    ensures Resolves(m, origin, q, qtype, o) <==> (q == origin ==> HasAfter(m, q)) && WildcardRuleSafe(m, origin, q, d)
  {
    NextCloserMissing(m, origin, q, d);
    WildSeenIsDeepest(m, q, |origin|, |q|);
    FallbackNone(m, origin, q, qtype, o, d);
  }

  lemma FallbackWild(m: Nodes, origin: Name, q: Name, qtype: RType, d: nat, e: nat)
    requires RfcUndivided(m, origin, q, qtype)
    requires IsEncloser(m, origin, q, d) && IsDeepestOffer(m, q, |origin|, |q|, e) && |origin| < e <= d + 1
    requires d < |q| ==> Tail(q, d + 1) !in m
    ensures q != origin
    ensures Resolves(m, origin, q, qtype, Wild(StarBelow(q, e - 1))) <==> WildcardRuleSafe(m, origin, q, d)
  {
    assert StarBelow(q, e - 1) in m;
    OfferIsSafe(m, origin, q, d, e);
    SourceOfSynthesis(m, origin, q, d, e);
  }

  lemma SourceOfSynthesis(m: Nodes, origin: Name, q: Name, d: nat, e: nat)
    requires IsEncloser(m, origin, q, d) && 1 <= e <= |q|
    ensures IsSourceOfSynthesis(m, origin, q, StarBelow(q, e - 1)) <==> e == d + 1
  {
    if IsSourceOfSynthesis(m, origin, q, StarBelow(q, e - 1)) {
      var f: nat :| IsEncloser(m, origin, q, f) && f < |q| && StarBelow(q, e - 1) == StarBelow(q, f);
      EncloserUnique(m, origin, q, d, f);
      assert |StarBelow(q, e - 1)| == e && |StarBelow(q, f)| == f + 1;
    }
  }

  lemma OfferIsSafe(m: Nodes, origin: Name, q: Name, d: nat, e: nat)
    requires d <= |q| && IsDeepestOffer(m, q, |origin|, |q|, e) && |origin| < e <= d + 1
    requires d < |q| ==> Tail(q, d + 1) !in m
    ensures WildcardRuleSafe(m, origin, q, d) <==> e == d + 1
  {
    assert Offers(m, q, e);
    if d < |q| && StarBelow(q, d) in m && d >= 1 {
      assert Offers(m, q, d + 1);
    }
  }

  lemma FallbackNone(m: Nodes, origin: Name, q: Name, qtype: RType, o: Outcome, d: nat)
    requires InZone(m, origin) && IsSub(origin, q) && RfcUndivided(m, origin, q, qtype) && q !in m
    requires IsEncloser(m, origin, q, d) && o == (if HasAfter(m, q) then EmptyNonTerminal else NoName)
    requires forall e: nat :: |origin| <= e <= |q| ==> !Offers(m, q, e)
    requires d < |q| ==> Tail(q, d + 1) !in m
    ensures Resolves(m, origin, q, qtype, o) <==> (q == origin ==> HasAfter(m, q)) && WildcardRuleSafe(m, origin, q, d)
  {
    TailSelf(q);
    AfterIsBelow(m, q);
    assert q == [] ==> q == origin;
    if d < |q| {
      assert !Exists(m, origin, Tail(q, |q|));
      assert d >= 1 ==> !Offers(m, q, d + 1);
      forall f: nat | IsEncloser(m, origin, q, f)
        ensures f == d
      {
        EncloserUnique(m, origin, q, d, f);
      }
    }
  }

  lemma AllStopsAgree(m: Nodes, origin: Name, q: Name, qtype: RType)
    requires IsSub(origin, q) && ApexApart(m, origin)
    ensures forall e: nat :: |origin| <= e <= |q| ==> RfcStops(m, origin, q, qtype, e) == Stops(m, q, qtype, e)
    ensures NoStopBefore(m, origin, q, qtype, |q| + 1) <==> RfcUndivided(m, origin, q, qtype)
  {
    forall e: nat | |origin| <= e <= |q|
      ensures RfcStops(m, origin, q, qtype, e) == Stops(m, q, qtype, e)
    {
      StopsAgree(m, origin, q, qtype, e);
    }
  }

  lemma StopResolves(m: Nodes, origin: Name, q: Name, qtype: RType, o: Outcome, d: nat)
    requires ApexApart(m, origin) && IsSub(origin, q) && IsFirstStop(m, origin, q, qtype, d)
    requires o == if IsRedirect(m, q, d) then Redirect(Tail(q, d)) else Referral(Tail(q, d))
    ensures Resolves(m, origin, q, qtype, o) && !RfcUndivided(m, origin, q, qtype)
  {
    AllStopsAgree(m, origin, q, qtype);
    assert RfcTopStop(m, origin, q, qtype, d);
  }

  lemma MissResolves(m: Nodes, origin: Name, q: Name, qtype: RType, o: Outcome)
    requires InZone(m, origin) && ApexApart(m, origin) && IsSub(origin, q) && RfcUndivided(m, origin, q, qtype) && q !in m
    requires WildSeen(m, q, |origin|, |q|).Some? ==> o == Wild(WildSeen(m, q, |origin|, |q|).value)
    requires WildSeen(m, q, |origin|, |q|).None? ==> o == if HasAfter(m, q) then EmptyNonTerminal else NoName
    ensures Resolves(m, origin, q, qtype, o) <==> Faithful(m, origin, q, qtype)
  {
    var d := EncloserExists(m, origin, q, |q|);
    FallbackResolves(m, origin, q, qtype, o, d);
    forall f: nat | IsEncloser(m, origin, q, f)
      ensures f == d
    {
      EncloserUnique(m, origin, q, d, f);
    }
  }

  /** `Zone.Lookup` resolves a query if and only if the zone is faithful for it. */
  lemma WalkResolves(m: Nodes, origin: Name, q: Name, qtype: RType, o: Outcome)
    requires InZone(m, origin) && ApexApart(m, origin) && IsSub(origin, q) && Decides(m, origin, q, qtype, o)
    ensures Resolves(m, origin, q, qtype, o) <==> Faithful(m, origin, q, qtype)
  {
    if o.Redirect? || o.Referral? {
      var d: nat :| IsFirstStop(m, origin, q, qtype, d) && o.node == Tail(q, d) && IsRedirect(m, q, d) == o.Redirect?;
      StopResolves(m, origin, q, qtype, o, d);
    } else {
      AllStopsAgree(m, origin, q, qtype);
      if q !in m { MissResolves(m, origin, q, qtype, o); }
    }
  }

  /** In an ancestor-closed zone every query below the apex is resolved, unless the origin is the root and `*` is stored. */
  lemma ClosedZoneResolves(m: Nodes, origin: Name, q: Name, qtype: RType, o: Outcome)
    requires InZone(m, origin) && ApexApart(m, origin) && IsSub(origin, q) && q != origin && Decides(m, origin, q, qtype, o)
    requires AncestorClosed(m, origin) && (origin != [] || [STAR] !in m)
    ensures Resolves(m, origin, q, qtype, o)
  {
    forall d: nat | IsEncloser(m, origin, q, d)
      ensures WildcardRuleSafe(m, origin, q, d)
    {
      ClosedRuleSafe(m, origin, q, d);
    }
    WalkResolves(m, origin, q, qtype, o);
  }

  lemma ClosedRuleSafe(m: Nodes, origin: Name, q: Name, d: nat)
    requires InZone(m, origin) && IsSub(origin, q) && q != origin && IsEncloser(m, origin, q, d)
    requires AncestorClosed(m, origin) && (origin != [] || [STAR] !in m)
    ensures WildcardRuleSafe(m, origin, q, d)
  {
    assert |q| > 0 && StarBelow(q, 0) == [STAR];
    forall e: nat | |origin| < e <= d
      ensures Tail(q, e) in m
    {
      ClosedPath(m, origin, q, d, e);
    }
  }

  /** In an ancestor-closed zone every name between the apex and an existing name is stored. */
  lemma ClosedPath(m: Nodes, origin: Name, q: Name, d: nat, e: nat)
    requires AncestorClosed(m, origin) && |origin| < e <= d <= |q| && Exists(m, origin, Tail(q, d))
    ensures Tail(q, e) in m
  {
    assert |Tail(q, d)| != |origin|;
    var x :| x in m && IsSub(Tail(q, d), x);
    assert x[|x| - e..] == x[|x| - d..][d - e..] == Tail(q, d)[d - e..];
    assert Tail(x, e) == Tail(q, e);
  }

  // ----- queries that are not resolved -----

  /**
   * With address records at `*.e` and `a.b.e` loaded, `b.e` is an empty non-terminal and the name `x.b.e` does not
   * exist, but the loop answers `x.b.e` from `*.e`.
   */
  lemma BlockedWildcardIsTaken() returns (z: ZoneData, q: Name, w: Name)
    ensures w == [STAR, [101]] && q == [[120], [98], [101]]
    ensures InsertAll(Fresh([[101]]), [RR(w, TYPE_A, 60, Opaque([1])), RR([[97], [98], [101]], TYPE_A, 60, Opaque([2]))]) == Some(z)
    ensures Decides(Contents(z.tree), z.origin, q, TYPE_A, Wild(w)) && !Resolves(Contents(z.tree), z.origin, q, TYPE_A, Wild(w))
  {
    w, q := [STAR, [101]], [[120], [98], [101]];
    z := LoadTwo([[101]], RR(w, TYPE_A, 60, Opaque([1])), RR([[97], [98], [101]], TYPE_A, 60, Opaque([2])));
    BlockedIn(Contents(z.tree), z.origin, q, w);
  }

  lemma BlockedIn(m: Nodes, o: Name, q: Name, w: Name)
    requires o == [[101]] && w == [STAR, [101]] && q == [[120], [98], [101]]
    requires forall n :: n in m <==> n == w || n == [[97], [98], [101]]
    ensures Decides(m, o, q, TYPE_A, Wild(w)) && !Resolves(m, o, q, TYPE_A, Wild(w))
  {
    var deep: Name := [[97], [98], [101]];
    BlockedNames(q);
    assert q !in m && Tail(q, 2) !in m && Tail(q, 1) !in m && StarBelow(q, 2) !in m by { assert |w| == 2 && |deep| == 3; }
    assert HasBelow(m, Tail(q, 2)) by { assert deep in m && IsSub(Tail(q, 2), deep); }
    BlockedWildcard(m, o, q);
  }

  lemma BlockedNames(q: Name)
    requires q == [[120], [98], [101]]
    ensures var star: Name, deep: Name := [STAR, [101]], [[97], [98], [101]];
      && StarBelow(q, 1) == star && StarBelow(q, 2) != star && StarBelow(q, 2) != deep && IsSub(Tail(q, 2), deep) && IsSub([[101]], q)
      && q != star && q != deep && |Tail(q, 1)| == 1 && Tail(q, 2) != star
  {
    var deep: Name := [[97], [98], [101]];
    assert q[2..] == [[101]] && q[1..] == [[98], [101]];
    assert deep[1..] == Tail(q, 2);
    assert StarBelow(q, 2)[0] == STAR && Tail(q, 2)[0] == [98] && q[0] == [120];
  }

  lemma BlockedWildcard(m: Nodes, o: Name, q: Name)
    requires |o| == 1 && |q| == 3 && IsSub(o, q) && q !in m && Tail(q, 2) !in m && Tail(q, 1) !in m
    requires StarBelow(q, 1) in m && StarBelow(q, 2) !in m && HasBelow(m, Tail(q, 2))
    ensures Decides(m, o, q, TYPE_A, Wild(StarBelow(q, 1))) && !Resolves(m, o, q, TYPE_A, Wild(StarBelow(q, 1)))
  {
    BlockedWildcardSeen(m, q);
    TailSelf(q);
    assert forall e: nat :: 1 <= e <= 3 ==> !Stops(m, q, TYPE_A, e);
    EncloserBelow(m, o, q, StarBelow(q, 1));
  }

  lemma BlockedWildcardSeen(m: Nodes, q: Name)
    requires |q| == 3 && q !in m && Tail(q, 2) !in m && StarBelow(q, 1) in m && StarBelow(q, 2) !in m
    ensures WildSeen(m, q, 1, 3) == Some(StarBelow(q, 1))
  {
    TailSelf(q);
    AsteriskIsStarBelow(q, 2);
    AsteriskIsStarBelow(q, 3);
    assert WildSeen(m, q, 1, 2) == Some(StarBelow(q, 1));
  }

  lemma EncloserBelow(m: Nodes, o: Name, q: Name, w: Name)
    requires |q| >= 2 && |w| == 2 && HasBelow(m, Tail(q, 2))
    ensures !IsSourceOfSynthesis(m, o, q, w)
  {
    if d: nat :| IsEncloser(m, o, q, d) && d < |q| && w == StarBelow(q, d) {
      assert d == 1 by { assert |StarBelow(q, d)| == d + 1; }
      assert Exists(m, o, Tail(q, 2));
      assert false;
    }
  }

  /** A zone that holds nothing but its SOA and NS records denies its own apex. */
  lemma BareApexIsDenied(o: Name, qtype: RType)
    ensures Decides(map[], o, o, qtype, NoName) && !Resolves(map[], o, o, qtype, NoName)
  {
  }
}
