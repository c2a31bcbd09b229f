/** Resource records, as far as the zone engine looks into them, and the records held at one name. */
module Records {
  import opened Bytes
  import opened Names

  type RType = x: int | 0 <= x < 65536

  const TYPE_A: RType := 1
  const TYPE_NS: RType := 2
  const TYPE_CNAME: RType := 5
  const TYPE_SOA: RType := 6
  const TYPE_MX: RType := 15
  const TYPE_AAAA: RType := 28
  const TYPE_DNAME: RType := 39
  const TYPE_OPT: RType := 41
  const TYPE_DS: RType := 43
  const TYPE_RRSIG: RType := 46
  const TYPE_NSEC: RType := 47
  const TYPE_NSEC3: RType := 50
  const TYPE_NSEC3PARAM: RType := 51
  const TYPE_IXFR: RType := 251
  const TYPE_AXFR: RType := 252

  /** `Target` is the name in a CNAME, DNAME or NS record, `Covers` the covered type of an RRSIG, `NextOwner` the next owner of an NSEC. */
  datatype RData =
    | Target(target: Name)
    | Covers(covered: RType)
    | Soa(serial: nat)
    | NextOwner(next: Name)
    | Opaque(bytes: Str)

  datatype RR = RR(owner: Name, rtype: RType, ttl: nat, data: RData)

  /** `tree.Elem`: the records of one owner by type. */
  type Elem = map<RType, seq<RR>>

  /** `Elem.Type`: a missing type reads as no records. */
  function OfType(e: Elem, t: RType): seq<RR> {
    if t in e then e[t] else []
  }

  /** `Elem.Insert` and `newElem`: append to the records of the same type. */
  function WithRecord(e: Elem, rr: RR): Elem {
    e[rr.rtype := OfType(e, rr.rtype) + [rr]]
  }

  function TargetOf(rr: RR): Name {
    match rr.data case Target(n) => n case _ => []
  }

  /**
   * Kinds of records, by their own fields. `Plain` are the records at `n` of type `t` that do not belong to the apex `o`.
   */
  datatype Sort =
    | AnySoa
    | NsAt(o: Name)
    | SigOver(covered: RType)
    | NsSigAt(o: Name)
    | Plain(o: Name, n: Name, t: RType)

  /** A record that is kept beside the tree of the zone `o`. */
  predicate OfApex(rr: RR, o: Name) {
    || rr.rtype == TYPE_SOA
    || (rr.rtype == TYPE_NS && rr.owner == o)
    || (rr.rtype == TYPE_RRSIG && rr.data == Covers(TYPE_SOA))
    || (rr.rtype == TYPE_RRSIG && rr.data == Covers(TYPE_NS) && rr.owner == o)
  }

  predicate Is(rr: RR, s: Sort) {
    match s
    case AnySoa => rr.rtype == TYPE_SOA
    case NsAt(o) => rr.rtype == TYPE_NS && rr.owner == o
    case SigOver(t) => rr.rtype == TYPE_RRSIG && rr.data == Covers(t)
    case NsSigAt(o) => rr.rtype == TYPE_RRSIG && rr.data == Covers(TYPE_NS) && rr.owner == o
    case Plain(o, n, t) => rr.owner == n && rr.rtype == t && !OfApex(rr, o)
  }

  /** The records of one kind, in their order. */
  function Only(rrs: seq<RR>, s: Sort): seq<RR> {
    if rrs == [] then [] else (if Is(rrs[0], s) then [rrs[0]] else []) + Only(rrs[1..], s)
  }

  /** `rrutil.SubTypeSignature`: the signatures over type `t`. */
  function Signatures(rrs: seq<RR>, t: RType): (r: seq<RR>)
    ensures forall x :: x in r ==> x in rrs && x.rtype == TYPE_RRSIG
  {
    if rrs == [] then []
    else (if rrs[0].rtype == TYPE_RRSIG && rrs[0].data == Covers(t) then [rrs[0]] else []) + Signatures(rrs[1..], t)
  }

  /** `typeFromElem`: the records of type `t` and, when `do` is set, their signatures. */
  function TypeFromElem(e: Elem, t: RType, do: bool): seq<RR> {
    OfType(e, t) + if do then Signatures(OfType(e, TYPE_RRSIG), t) else []
  }

  /** Exactly the signatures over the type are found, in their order. */
  lemma {:induction false} SignaturesOnly(rrs: seq<RR>, t: RType)
    ensures Signatures(rrs, t) == Only(rrs, SigOver(t))
  {
    if rrs != [] {
      SignaturesOnly(rrs[1..], t);
    }
  }
}
