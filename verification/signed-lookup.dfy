/**
 * The authority section of `Zone.Lookup`, for every outcome of the walk, and exactly when it proves what it has to.
 */
module SignedLookup {
  import opened Names
  import opened Records
  import opened ZoneTree
  import opened Lookup
  import opened Options
  import opened Nsec
  import opened Denial

  /** The node has an alias that comes before the type asked for. */
  predicate Aliased(e: Elem, qtype: RType) {
    qtype != TYPE_CNAME && OfType(e, TYPE_CNAME) != []
  }

  /** The NSEC of a node and the signatures over it, for those who asked. */
  function NsecIf(e: Elem, do: bool): seq<RR> {
    if do then OfType(e, TYPE_NSEC) + Only(OfType(e, TYPE_RRSIG), SigOver(TYPE_NSEC)) else []
  }

  /** A node found for the name, or standing in for it: `yes` for an answer, the SOA and its NSEC if it has no such type. */
  ghost predicate NodeAuthority(e: Elem, qtype: RType, do: bool, soa: seq<RR>, ns: seq<RR>, auth: seq<RR>, yes: bool) {
    if Aliased(e, qtype) then auth == ns else if OfType(e, qtype) == [] then auth == soa + NsecIf(e, do) else yes
  }

  /**
   * The authority section for each outcome. `soa` and `ns` are the SOA and the NS records of the apex, with their signatures
   * if these were asked for.
   */
  ghost predicate AuthorityFits(m: Nodes, origin: Name, q: Name, qtype: RType, do: bool, soa: seq<RR>, ns: seq<RR>, o: Outcome, auth: seq<RR>) {
    match o
    case Redirect(_) => auth == ns
    case Referral(n) =>
      n in m && auth == OfType(m[n], TYPE_NS) + (if do then OfType(m[n], TYPE_DS) + Only(OfType(m[n], TYPE_RRSIG), SigOver(TYPE_DS)) else [])
    case Found(n) => n in m && NodeAuthority(m[n], qtype, do, soa, ns, auth, auth == ns)
    case Wild(w) => w in m && NodeAuthority(m[w], qtype, do, soa, ns, auth, if do then IsDenial(m, origin, q, ns, false, auth) else auth == ns)
    case EmptyNonTerminal => if do then IsDenial(m, origin, q, soa, false, auth) else auth == soa
    case NoName => if do then IsDenial(m, origin, q, soa, true, auth) else auth == soa
  }

  /** What the section of a signed answer proves, exactly. */
  ghost predicate ProvesRight(m: Nodes, origin: Name, q: Name, qtype: RType, o: Outcome, auth: seq<RR>) {
    match o
    case NoName =>
      && (FullProof(m, origin, q, auth) <==> BothAtHand(m, q))
      && (AllOrderly(m, q) ==> FullProof(m, origin, q, auth))
    case EmptyNonTerminal => ProvedByPrev(m, origin, q, auth)
    case Wild(w) =>
      w in m && (!Aliased(m[w], qtype) ==>
        if OfType(m[w], qtype) != [] then ProvedByPrev(m, origin, q, auth)
        else Proves(auth, origin, q) <==> IsCanonPrev(m, q, w))
    case _ => true
  }

  lemma FitsProvesRight(m: Nodes, origin: Name, q: Name, qtype: RType, soa: seq<RR>, ns: seq<RR>, o: Outcome, auth: seq<RR>)
    requires origin != [] && Signed(m, origin) && IsSub(origin, q) && NoNsec(soa) && NoNsec(ns)
    requires Decides(m, origin, q, qtype, o) && AuthorityFits(m, origin, q, qtype, true, soa, ns, o, auth)
    ensures ProvesRight(m, origin, q, qtype, o, auth)
  {
    match o
    case NoName =>
      NxdomainIsProvedIff(m, origin, q, qtype, soa, auth);
      if AllOrderly(m, q) { OrderlyIsAtHand(m, origin, q, qtype); }
    case EmptyNonTerminal => OneNsecProvesIff(m, origin, q, soa, auth);
    case Wild(w) =>
      if !Aliased(m[w], qtype) {
        if OfType(m[w], qtype) == [] {
          NsecOfIs(m[w]);
          NodeAloneProvesIff(m, origin, q, w, soa);
        } else {
          OneNsecProvesIff(m, origin, q, ns, auth);
        }
      }
    case _ =>
  }

  /** Negative answers start with the SOA, answers with the NS records of the apex. */
  ghost predicate StartsWithApex(m: Nodes, qtype: RType, soa: seq<RR>, ns: seq<RR>, o: Outcome, auth: seq<RR>) {
    match o
    case Redirect(_) => ns <= auth
    case Referral(_) => true
    case Found(n) => n in m && if OfType(m[n], qtype) == [] && (qtype == TYPE_CNAME || OfType(m[n], TYPE_CNAME) == []) then soa <= auth else ns <= auth
    case Wild(w) => w in m && if OfType(m[w], qtype) == [] && (qtype == TYPE_CNAME || OfType(m[w], TYPE_CNAME) == []) then soa <= auth else ns <= auth
    case EmptyNonTerminal => soa <= auth
    case NoName => soa <= auth
  }

  lemma DenialKeepsBase(m: Nodes, origin: Name, q: Name, base: seq<RR>, nxdomain: bool, auth: seq<RR>)
    requires IsDenial(m, origin, q, base, nxdomain, auth)
    ensures base <= auth
  {
    var f, g :| DenialFrom(m, origin, q, base, nxdomain, auth, f, g);
  }

  lemma FitsStartsWithApex(m: Nodes, origin: Name, q: Name, qtype: RType, do: bool, soa: seq<RR>, ns: seq<RR>, o: Outcome, auth: seq<RR>)
    requires AuthorityFits(m, origin, q, qtype, do, soa, ns, o, auth)
    ensures StartsWithApex(m, qtype, soa, ns, o, auth)
  {
    if do {
      match o
      case NoName => DenialKeepsBase(m, origin, q, soa, true, auth);
      case EmptyNonTerminal => DenialKeepsBase(m, origin, q, soa, false, auth);
      case Wild(w) => if !Aliased(m[w], qtype) && OfType(m[w], qtype) != [] { DenialKeepsBase(m, origin, q, ns, false, auth); }
      case _ =>
    }
  }

  /** `Zone.Lookup`: what is decided and the authority section that goes with it. `odd` is what the tree finds before `*..`. */
  method LookupSigned(origin: Name, soa: seq<RR>, ns: seq<RR>, t: Tree, qname: Name, qtype: RType, do: bool, odd: Option<(Name, Elem)>)
    returns (o: Outcome, auth: seq<RR>)
    requires Ordered(t) && IsSub(origin, qname) && IsStored(Contents(t), odd)
    ensures Decides(Contents(t), origin, qname, qtype, o) && AuthorityFits(Contents(t), origin, qname, qtype, do, soa, ns, o, auth)
    ensures StartsWithApex(Contents(t), qtype, soa, ns, o, auth)
    ensures do && origin != [] && Signed(Contents(t), origin) && NoNsec(soa) && NoNsec(ns) ==>
      ProvesRight(Contents(t), origin, qname, qtype, o, auth)
  {
    o := Walk(origin, t, qname, qtype);
    NodeIsStored(Contents(t), origin, qname, qtype, o);
    auth := Authority(origin, soa, ns, t, qname, qtype, do, odd, o);
    FitsStartsWithApex(Contents(t), origin, qname, qtype, do, soa, ns, o, auth);
    if do && origin != [] && Signed(Contents(t), origin) && NoNsec(soa) && NoNsec(ns) {
      FitsProvesRight(Contents(t), origin, qname, qtype, soa, ns, o, auth);
    }
  }

  method Authority(
    origin: Name, soa: seq<RR>, ns: seq<RR>, t: Tree, qname: Name, qtype: RType, do: bool, odd: Option<(Name, Elem)>, o: Outcome)
    returns (auth: seq<RR>)
    requires Ordered(t) && IsSub(origin, qname) && IsStored(Contents(t), odd)
    requires o.Referral? || o.Redirect? || o.Found? || o.Wild? ==> o.node in Contents(t)
    ensures AuthorityFits(Contents(t), origin, qname, qtype, do, soa, ns, o, auth)
  {
    match o {
      case NoName =>
        auth := DenyIf(origin, soa, t, qname, true, do, odd);
      case EmptyNonTerminal =>
        auth := DenyIf(origin, soa, t, qname, false, do, odd);
      case Referral(n) =>
        var node := Get(t, n);
        auth := OfType(node.value, TYPE_NS);
        if do {
          TypeFromElemIs(node.value, TYPE_DS, do);
          auth := auth + TypeFromElem(node.value, TYPE_DS, do);
        }
      case Redirect(_) =>
        auth := ns;
      case Found(n) =>
        var node := Get(t, n);
        auth := ns;
        if !(OfType(node.value, TYPE_CNAME) != [] && qtype != TYPE_CNAME) && OfType(node.value, qtype) == [] {
          auth := NoDataAt(node.value, soa, do);
        }
      case Wild(w) =>
        var node := Get(t, w);
        if OfType(node.value, TYPE_CNAME) != [] && qtype != TYPE_CNAME {
          auth := ns;
        } else if OfType(node.value, qtype) == [] {
          auth := NoDataAt(node.value, soa, do);
        } else {
          auth := DenyIf(origin, ns, t, qname, false, do, odd);
        }
    }
  }

  method DenyIf(origin: Name, base: seq<RR>, t: Tree, qname: Name, nxdomain: bool, do: bool, odd: Option<(Name, Elem)>) returns (auth: seq<RR>)
    requires Ordered(t) && IsSub(origin, qname) && IsStored(Contents(t), odd)
    ensures if do then IsDenial(Contents(t), origin, qname, base, nxdomain, auth) else auth == base
  {
    auth := base;
    if do {
      auth := Deny(origin, base, t, qname, nxdomain, odd);
    }
  }

  method NoDataAt(e: Elem, soa: seq<RR>, do: bool) returns (auth: seq<RR>)
    ensures auth == soa + NsecIf(e, do)
  {
    auth := soa;
    if do {
      TypeFromElemIs(e, TYPE_NSEC, do);
      auth := auth + TypeFromElem(e, TYPE_NSEC, do);
    }
  }

  lemma NodeIsStored(m: Nodes, origin: Name, q: Name, qtype: RType, o: Outcome)
    requires Decides(m, origin, q, qtype, o)
    ensures o.Referral? || o.Redirect? || o.Found? || o.Wild? ==> o.node in m
  {
    if o.Wild? { WildSeenStored(m, q, |origin|, |q|); }
  }

  lemma {:induction false} WildSeenStored(m: Nodes, q: Name, lo: nat, d: int)
    requires d <= |q|
    ensures WildSeen(m, q, lo, d).Some? ==> WildSeen(m, q, lo, d).value in m
    decreases d
  {
    if d >= lo && StarBeside(m, q, d).None? { WildSeenStored(m, q, lo, d - 1); }
  }
}
