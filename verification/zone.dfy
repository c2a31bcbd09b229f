/** The contents of a zone and the one way records get into them: `Zone.Insert`. */
module Zones {
  import opened Names
  import opened Records
  import opened ZoneTree
  import opened Options

  datatype Apex = Apex(soa: Option<RR>, ns: seq<RR>, sigsoa: seq<RR>, signs: seq<RR>)

  /** One generation of a zone: what `snapshot` returns and `setData` installs. */
  datatype ZoneData = ZoneData(origin: Name, apex: Apex, tree: Tree)

  function Fresh(origin: Name): ZoneData {
    ZoneData(origin, Apex(None, [], [], []), Nil)
  }

  /** Where `Insert` puts a record. */
  datatype Place = InTree | InNs | InSoa | InSigSoa | InSigNs | Refused

  function PlaceOf(origin: Name, rr: RR): Place {
    if rr.rtype == TYPE_NS && rr.owner == origin then InNs
    else if rr.rtype == TYPE_SOA then InSoa
    else if rr.rtype == TYPE_NSEC3 || rr.rtype == TYPE_NSEC3PARAM then Refused
    else if rr.rtype == TYPE_RRSIG && rr.data == Covers(TYPE_SOA) then InSigSoa
    else if rr.rtype == TYPE_RRSIG && rr.data == Covers(TYPE_NS) && rr.owner == origin then InSigNs
    else InTree
  }

  /** The generation after `Insert(rr)`; `None` is the error for NSEC3 zones. */
  function Inserted(z: ZoneData, rr: RR): Option<ZoneData> {
    match PlaceOf(z.origin, rr)
    case InNs => Some(z.(apex := z.apex.(ns := z.apex.ns + [rr])))
    case InSoa => Some(z.(apex := z.apex.(soa := Some(rr))))
    case InSigSoa => Some(z.(apex := z.apex.(sigsoa := z.apex.sigsoa + [rr])))
    case InSigNs => Some(z.(apex := z.apex.(signs := z.apex.signs + [rr])))
    case InTree => Some(z.(tree := Insert(z.tree, rr)))
    case Refused => None
  }

  function InsertAll(z: ZoneData, rs: seq<RR>): Option<ZoneData>
    decreases |rs|
  {
    if rs == [] then Some(z)
    else match Inserted(z, rs[0]) case None => None case Some(z') => InsertAll(z', rs[1..])
  }

  /** A zone as the server holds it: a class whose fields are replaced under the zone's lock. */
  class Zone {
    const origin: Name
    var apex: Apex
    var tree: Tree
    var expired: bool

    ghost predicate Valid()
      reads this
    {
      Ordered(tree) && Balanced(tree)
    }

    function Data(): ZoneData
      reads this
    {
      ZoneData(origin, apex, tree)
    }

    /** `NewZone`. */
    constructor (origin: Name)
      ensures Valid() && Data() == Fresh(origin) && !expired
    {
      this.origin := origin;
      apex, tree, expired := Apex(None, [], [], []), Nil, false;
    }

    /** `Zone.Insert`. */
    method Insert(rr: RR) returns (ok: bool)
      requires Valid()
      modifies this
      ensures Valid() && expired == old(expired)
      ensures ok == Inserted(old(Data()), rr).Some?
      ensures Data() == if ok then Inserted(old(Data()), rr).value else old(Data())
    {
      if rr.rtype == TYPE_NS {
        if rr.owner == origin {
          apex := apex.(ns := apex.ns + [rr]);
          return true;
        }
      } else if rr.rtype == TYPE_SOA {
        apex := apex.(soa := Some(rr));
        return true;
      } else if rr.rtype == TYPE_NSEC3 || rr.rtype == TYPE_NSEC3PARAM {
        return false;
      } else if rr.rtype == TYPE_RRSIG {
        if rr.data == Covers(TYPE_SOA) {
          apex := apex.(sigsoa := apex.sigsoa + [rr]);
          return true;
        }
        if rr.data == Covers(TYPE_NS) && rr.owner == origin {
          apex := apex.(signs := apex.signs + [rr]);
          return true;
        }
      }
      InsertAdds(tree, rr);
      InsertBalances(tree, rr);
      tree := ZoneTree.Insert(tree, rr);
      return true;
    }

    /** `Zone.setData`. */
    method SetData(ap: Apex, t: Tree)
      requires Ordered(t) && Balanced(t)
      modifies this
      ensures Valid() && Data() == ZoneData(origin, ap, t) && !expired
    {
      apex, tree, expired := ap, t, false;
    }
  }

  // ----- what a zone built by Insert looks like -----

  /** The records at a name of a type, in the order they were inserted. */
  function At(z: ZoneData, n: Name, t: RType): seq<RR> {
    if n in Contents(z.tree) then OfType(Contents(z.tree)[n], t) else []
  }

  /** The record, if it goes into the tree under `n` and `t`. */
  function Here(rr: RR, origin: Name, n: Name, t: RType): seq<RR> {
    if PlaceOf(origin, rr) == InTree && rr.owner == n && rr.rtype == t then [rr] else []
  }

  /** The records of `rs` that go into the tree under `n` and `t`. */
  function Collect(rs: seq<RR>, origin: Name, n: Name, t: RType): seq<RR> {
    if rs == [] then [] else Here(rs[0], origin, n, t) + Collect(rs[1..], origin, n, t)
  }

  /** The records of `rs` that go to place `p`. */
  function Select(rs: seq<RR>, origin: Name, p: Place): seq<RR> {
    if rs == [] then []
    else (if PlaceOf(origin, rs[0]) == p then [rs[0]] else []) + Select(rs[1..], origin, p)
  }

  function LastSoa(rs: seq<RR>, origin: Name, before: Option<RR>): Option<RR> {
    var s := Select(rs, origin, InSoa);
    if s == [] then before else Some(s[|s| - 1])
  }

  /** Nothing is stored as an empty list or an empty node. */
  ghost predicate Tidy(z: ZoneData) {
    forall n :: n in Contents(z.tree) ==> TidyElem(Contents(z.tree)[n])
  }

  ghost predicate TidyElem(e: Elem) {
    e != map[] && forall t :: t in e ==> e[t] != []
  }

  /** A zone that `Insert` can have built. */
  ghost predicate Built(z: ZoneData) {
    && Ordered(z.tree) && Tidy(z)
    && (z.apex.soa.Some? ==> PlaceOf(z.origin, z.apex.soa.value) == InSoa)
    && (forall rr :: rr in z.apex.ns ==> PlaceOf(z.origin, rr) == InNs)
    && (forall rr :: rr in z.apex.sigsoa ==> PlaceOf(z.origin, rr) == InSigSoa)
    && (forall rr :: rr in z.apex.signs ==> PlaceOf(z.origin, rr) == InSigNs)
    && forall n, t :: InPlace(At(z, n, t), z.origin, n, t)
  }

  ghost predicate InPlace(rrs: seq<RR>, origin: Name, n: Name, t: RType) {
    forall rr :: rr in rrs ==> PlaceOf(origin, rr) == InTree && rr.owner == n && rr.rtype == t
  }

  lemma InsertedAt(z: ZoneData, rr: RR, n: Name, t: RType)
    requires Ordered(z.tree) && Inserted(z, rr).Some?
    ensures Ordered(Inserted(z, rr).value.tree)
    ensures At(Inserted(z, rr).value, n, t) == At(z, n, t) + Here(rr, z.origin, n, t)
  {
    if PlaceOf(z.origin, rr) == InTree {
      InsertAdds(z.tree, rr);
      AddedAt(Contents(z.tree), rr, n, t);
    }
  }

  lemma AddedAt(m: map<Name, Elem>, rr: RR, n: Name, t: RType)
    ensures (if n in Added(m, rr) then OfType(Added(m, rr)[n], t) else []) ==
      (if n in m then OfType(m[n], t) else []) + if rr.owner == n && rr.rtype == t then [rr] else []
  {
  }

  lemma AddedTidy(m: map<Name, Elem>, rr: RR)
    requires forall n :: n in m ==> TidyElem(m[n])
    ensures forall n :: n in Added(m, rr) ==> TidyElem(Added(m, rr)[n])
  {
    var e: Elem := if rr.owner in m then m[rr.owner] else map[];
    assert rr.rtype in WithRecord(e, rr);
  }

  lemma InsertedTidy(z: ZoneData, rr: RR)
    requires Ordered(z.tree) && Tidy(z) && Inserted(z, rr).Some?
    ensures Tidy(Inserted(z, rr).value)
  {
    if PlaceOf(z.origin, rr) == InTree {
      InsertAdds(z.tree, rr);
      AddedTidy(Contents(z.tree), rr);
    }
  }

  /** Every zone that `Insert` builds, record by record, stays of that form. */
  lemma InsertedBuilt(z: ZoneData, rr: RR)
    requires Built(z) && Inserted(z, rr).Some?
    ensures Built(Inserted(z, rr).value)
  {
    var z' := Inserted(z, rr).value;
    InsertedTidy(z, rr);
    forall n, t
      ensures InPlace(At(z', n, t), z.origin, n, t)
    {
      InsertedAt(z, rr, n, t);
      assert InPlace(At(z, n, t), z.origin, n, t);
    }
    InsertedAt(z, rr, [], 0);
  }

  lemma {:induction false} InsertAllBuilt(z: ZoneData, rs: seq<RR>)
    requires Built(z) && InsertAll(z, rs).Some?
    ensures Built(InsertAll(z, rs).value)
    decreases |rs|
  {
    if rs != [] {
      InsertedBuilt(z, rs[0]);
      InsertAllBuilt(Inserted(z, rs[0]).value, rs[1..]);
    }
  }

  lemma FreshBuilt(origin: Name)
    ensures Built(Fresh(origin))
  {
  }

  lemma InsertPair(z: ZoneData, a: RR, b: RR)
    requires Inserted(z, a).Some?
    ensures InsertAll(z, [a, b]) == Inserted(Inserted(z, a).value, b)
  {
    assert [a, b][1..] == [b] && [b][1..] == [];
    var z' := Inserted(z, a).value;
    assert InsertAll(z, [a, b]) == InsertAll(z', [b]);
    assert Inserted(z', b).Some? ==> InsertAll(Inserted(z', b).value, []) == Inserted(z', b);
  }

  /** The nodes are those of two records with different owners. */
  ghost predicate TwoNodes(m: map<Name, Elem>, a: RR, b: RR) {
    && (forall n :: n in m <==> n == a.owner || n == b.owner)
    && (forall t :: OfType(m[a.owner], t) == if t == a.rtype then [a] else [])
    && (forall t :: OfType(m[b.owner], t) == if t == b.rtype then [b] else [])
  }

  /** A zone loaded with two records that go into the tree. */
  lemma LoadTwo(origin: Name, a: RR, b: RR) returns (z: ZoneData)
    requires PlaceOf(origin, a) == InTree && PlaceOf(origin, b) == InTree && a.owner != b.owner
    ensures InsertAll(Fresh(origin), [a, b]) == Some(z) && z.origin == origin && Built(z) && TwoNodes(Contents(z.tree), a, b)
  {
    var f := Fresh(origin);
    var y := Inserted(f, a).value;
    z := Inserted(y, b).value;
    InsertPair(f, a, b);
    FreshBuilt(origin);
    InsertedBuilt(f, a);
    InsertedBuilt(y, b);
    InsertAdds(f.tree, a);
    InsertAdds(y.tree, b);
    AddedTwo(a, b);
  }

  lemma AddedTwo(a: RR, b: RR)
    requires a.owner != b.owner
    ensures TwoNodes(Added(Added(map[], a), b), a, b)
  {
  }

  /** A list of records is refused exactly when it holds a record that has no place. */
  lemma {:induction false} InsertAllSucceeds(z: ZoneData, rs: seq<RR>)
    ensures InsertAll(z, rs).Some? <==> Select(rs, z.origin, Refused) == []
    ensures InsertAll(z, rs).Some? ==> InsertAll(z, rs).value.origin == z.origin
    decreases |rs|
  {
    if rs != [] && Inserted(z, rs[0]).Some? {
      InsertAllSucceeds(Inserted(z, rs[0]).value, rs[1..]);
    }
  }

  /** Inserting a list of records appends to every name and type exactly the records that belong there, in order. */
  lemma {:induction false} InsertAllCollects(z: ZoneData, rs: seq<RR>, n: Name, t: RType)
    requires Ordered(z.tree) && Tidy(z) && InsertAll(z, rs).Some?
    ensures Ordered(InsertAll(z, rs).value.tree) && Tidy(InsertAll(z, rs).value)
    ensures At(InsertAll(z, rs).value, n, t) == At(z, n, t) + Collect(rs, z.origin, n, t)
    decreases |rs|
  {
    if rs != [] {
      var z', here := Inserted(z, rs[0]).value, Here(rs[0], z.origin, n, t);
      InsertedKeeps(z, rs[0]);
      InsertedAt(z, rs[0], n, t);
      InsertAllCollects(z', rs[1..], n, t);
      Associate(At(z, n, t), here, Collect(rs[1..], z.origin, n, t));
    }
  }

  lemma InsertedKeeps(z: ZoneData, rr: RR)
    requires Ordered(z.tree) && Tidy(z) && Inserted(z, rr).Some?
    ensures Inserted(z, rr).value.origin == z.origin && Ordered(Inserted(z, rr).value.tree) && Tidy(Inserted(z, rr).value)
  {
    InsertedTidy(z, rr);
    InsertedAt(z, rr, rr.owner, rr.rtype);
  }

  lemma Associate(a: seq<RR>, b: seq<RR>, c: seq<RR>)
    ensures a + b + c == a + (b + c)
  {
  }

  function ApexAfter(a: Apex, rs: seq<RR>, origin: Name): Apex {
    Apex(LastSoa(rs, origin, a.soa), a.ns + Select(rs, origin, InNs), a.sigsoa + Select(rs, origin, InSigSoa), a.signs + Select(rs, origin, InSigNs))
  }

  lemma ApexAfterCons(a: Apex, rr: RR, rs: seq<RR>, origin: Name)
    ensures ApexAfter(a, [rr] + rs, origin) == ApexAfter(ApexAfter(a, [rr], origin), rs, origin)
  {
    assert ([rr] + rs)[1..] == rs && [rr][1..] == [];
    assert forall p :: Select([rr] + rs, origin, p) == Select([rr], origin, p) + Select(rs, origin, p);
  }

  lemma InsertedApex(z: ZoneData, rr: RR)
    requires Inserted(z, rr).Some?
    ensures Inserted(z, rr).value.origin == z.origin && Inserted(z, rr).value.apex == ApexAfter(z.apex, [rr], z.origin)
  {
    assert [rr][1..] == [];
    assert forall p :: Select([rr], z.origin, p) == if PlaceOf(z.origin, rr) == p then [rr] else [];
    assert z.apex.ns + [] == z.apex.ns && z.apex.sigsoa + [] == z.apex.sigsoa && z.apex.signs + [] == z.apex.signs;
  }

  /** Inserting a list of records keeps the last SOA and appends to each apex list the records that belong there. */
  lemma {:induction false} InsertAllApex(z: ZoneData, rs: seq<RR>)
    requires InsertAll(z, rs).Some?
    ensures InsertAll(z, rs).value.apex == ApexAfter(z.apex, rs, z.origin)
    decreases |rs|
  {
    if rs != [] {
      InsertedApex(z, rs[0]);
      InsertAllApex(Inserted(z, rs[0]).value, rs[1..]);
      ApexAfterCons(z.apex, rs[0], rs[1..], z.origin);
      assert rs == [rs[0]] + rs[1..];
    }
  }

  /** Two tidy zones with the same records at every name and type have the same contents. */
  lemma SameRecordsSameContents(a: ZoneData, b: ZoneData)
    requires Tidy(a) && Tidy(b) && forall n, t :: At(a, n, t) == At(b, n, t)
    ensures Contents(a.tree) == Contents(b.tree)
  {
    var ma, mb := Contents(a.tree), Contents(b.tree);
    forall n | n in ma
      ensures n in mb
    {
      SomeRecord(a, b, n);
    }
    forall n | n in mb
      ensures n in ma
    {
      SomeRecord(b, a, n);
    }
    forall n | n in ma
      ensures ma[n] == mb[n]
    {
      assert TidyElem(ma[n]) && TidyElem(mb[n]);
      forall t: RType
        ensures OfType(ma[n], t) == OfType(mb[n], t)
      {
        assert At(a, n, t) == At(b, n, t);
      }
      assert forall t :: t in ma[n] <==> OfType(ma[n], t) != [];
      assert forall t :: t in mb[n] <==> OfType(mb[n], t) != [];
    }
  }

  lemma SomeRecord(a: ZoneData, b: ZoneData, n: Name)
    requires Tidy(a) && n in Contents(a.tree) && forall t :: At(a, n, t) == At(b, n, t)
    ensures n in Contents(b.tree)
  {
    assert TidyElem(Contents(a.tree)[n]);
    var t :| t in Contents(a.tree)[n];
    assert At(a, n, t) != [];
  }

  /** The nodes of a zone loaded with four records. */
  ghost predicate FourRecords(m: map<Name, Elem>, rs: seq<RR>)
    requires |rs| == 4
  {
    && (forall n :: n in m <==> n == rs[0].owner || n == rs[1].owner || n == rs[2].owner || n == rs[3].owner)
    && (forall n, t :: n in m ==> OfType(m[n], t) == Own(rs[0], n, t) + Own(rs[1], n, t) + Own(rs[2], n, t) + Own(rs[3], n, t))
  }

  function Own(rr: RR, n: Name, t: RType): seq<RR> {
    if rr.owner == n && rr.rtype == t then [rr] else []
  }

  lemma LoadFour(origin: Name, rs: seq<RR>) returns (z: ZoneData)
    requires |rs| == 4 && forall i :: 0 <= i < 4 ==> PlaceOf(origin, rs[i]) == InTree
    ensures InsertAll(Fresh(origin), rs) == Some(z) && z.origin == origin && Built(z) && FourRecords(Contents(z.tree), rs)
  {
    NothingRefused(origin, rs);
    InsertAllSucceeds(Fresh(origin), rs);
    z := InsertAll(Fresh(origin), rs).value;
    FreshBuilt(origin);
    InsertAllBuilt(Fresh(origin), rs);
    forall n, t ensures At(z, n, t) == Own(rs[0], n, t) + Own(rs[1], n, t) + Own(rs[2], n, t) + Own(rs[3], n, t) {
      InsertAllCollects(Fresh(origin), rs, n, t);
      CollectFour(origin, rs, n, t);
    }
    FourOwners(z, rs);
  }

  lemma FourOwners(z: ZoneData, rs: seq<RR>)
    requires |rs| == 4 && Tidy(z)
    requires forall n, t :: At(z, n, t) == Own(rs[0], n, t) + Own(rs[1], n, t) + Own(rs[2], n, t) + Own(rs[3], n, t)
    ensures FourRecords(Contents(z.tree), rs)
  {
    var m := Contents(z.tree);
    forall n | n in m ensures n == rs[0].owner || n == rs[1].owner || n == rs[2].owner || n == rs[3].owner {
      assert TidyElem(m[n]);
      var t :| t in m[n];
      assert At(z, n, t) != [];
    }
    forall i | 0 <= i < 4 ensures rs[i].owner in m {
      assert At(z, rs[i].owner, rs[i].rtype) != [];
    }
  }

  lemma {:induction false} NothingRefused(origin: Name, rs: seq<RR>)
    requires forall i :: 0 <= i < |rs| ==> PlaceOf(origin, rs[i]) == InTree
    ensures Select(rs, origin, Refused) == []
  {
    if rs != [] { NothingRefused(origin, rs[1..]); }
  }

  lemma CollectOwn(origin: Name, rs: seq<RR>, i: nat, n: Name, t: RType)
    requires i < |rs| && PlaceOf(origin, rs[i]) == InTree
    ensures Collect(rs[i..], origin, n, t) == Own(rs[i], n, t) + Collect(rs[i + 1..], origin, n, t)
  {
    assert rs[i..][1..] == rs[i + 1..];
  }

  lemma CollectFour(origin: Name, rs: seq<RR>, n: Name, t: RType)
    requires |rs| == 4 && forall i :: 0 <= i < 4 ==> PlaceOf(origin, rs[i]) == InTree
    ensures Collect(rs, origin, n, t) == Own(rs[0], n, t) + Own(rs[1], n, t) + Own(rs[2], n, t) + Own(rs[3], n, t)
  {
    CollectOwn(origin, rs, 0, n, t);
    CollectOwn(origin, rs, 1, n, t);
    CollectOwn(origin, rs, 2, n, t);
    CollectOwn(origin, rs, 3, n, t);
    assert rs[0..] == rs && rs[4..] == [];
    JoinFour(Own(rs[0], n, t), Own(rs[1], n, t), Own(rs[2], n, t), Own(rs[3], n, t));
  }

  lemma JoinFour(a: seq<RR>, b: seq<RR>, c: seq<RR>, d: seq<RR>)
    ensures a + (b + (c + (d + []))) == a + b + c + d
  {
  }

  // ----- the same in terms of the records alone -----

  predicate IsNsec3(rr: RR) {
    rr.rtype == TYPE_NSEC3 || rr.rtype == TYPE_NSEC3PARAM
  }

  lemma {:induction false} SelectOnly(rs: seq<RR>, o: Name)
    ensures Select(rs, o, InSoa) == Only(rs, AnySoa) && Select(rs, o, InNs) == Only(rs, NsAt(o))
    ensures Select(rs, o, InSigSoa) == Only(rs, SigOver(TYPE_SOA)) && Select(rs, o, InSigNs) == Only(rs, NsSigAt(o))
    ensures Select(rs, o, Refused) == [] <==> forall i :: 0 <= i < |rs| ==> !IsNsec3(rs[i])
  {
    if rs != [] {
      SelectOnly(rs[1..], o);
      assert forall i :: 0 < i < |rs| ==> rs[i] == rs[1..][i - 1];
    }
  }

  lemma {:induction false} CollectOnly(rs: seq<RR>, o: Name, n: Name, t: RType)
    requires forall i :: 0 <= i < |rs| ==> !IsNsec3(rs[i])
    ensures Collect(rs, o, n, t) == Only(rs, Plain(o, n, t))
  {
    if rs != [] {
      forall i | 0 <= i < |rs[1..]| ensures !IsNsec3(rs[1..][i]) {
        assert rs[1..][i] == rs[i + 1];
      }
      CollectOnly(rs[1..], o, n, t);
      HereIsPlain(rs[0], o, n, t);
    }
  }

  lemma HereIsPlain(rr: RR, o: Name, n: Name, t: RType)
    requires !IsNsec3(rr)
    ensures Here(rr, o, n, t) == if Is(rr, Plain(o, n, t)) then [rr] else []
  {
  }

  /**
   * What a zone loaded with `rs` holds: the last SOA, the NS records of the apex, the signatures over the SOA and those of
   * the apex over NS, and in the tree every other record under its owner and type, all in their order. The load fails if
   * and only if there is an NSEC3 or NSEC3PARAM record.
   */
  ghost predicate Holds(z: ZoneData, rs: seq<RR>) {
    && z.apex.soa == (if Only(rs, AnySoa) == [] then None else Some(Only(rs, AnySoa)[|Only(rs, AnySoa)| - 1]))
    && z.apex.ns == Only(rs, NsAt(z.origin))
    && z.apex.sigsoa == Only(rs, SigOver(TYPE_SOA)) && z.apex.signs == Only(rs, NsSigAt(z.origin))
    && forall n, t :: At(z, n, t) == Only(rs, Plain(z.origin, n, t))
  }

  lemma LoadedZone(o: Name, rs: seq<RR>)
    ensures InsertAll(Fresh(o), rs).Some? <==> forall i :: 0 <= i < |rs| ==> !IsNsec3(rs[i])
    ensures InsertAll(Fresh(o), rs).Some? ==> InsertAll(Fresh(o), rs).value.origin == o && Holds(InsertAll(Fresh(o), rs).value, rs)
  {
    SelectOnly(rs, o);
    InsertAllSucceeds(Fresh(o), rs);
    if InsertAll(Fresh(o), rs).Some? {
      InsertAllApex(Fresh(o), rs);
      forall n, t ensures At(InsertAll(Fresh(o), rs).value, n, t) == Only(rs, Plain(o, n, t)) {
        InsertAllCollects(Fresh(o), rs, n, t);
        CollectOnly(rs, o, n, t);
      }
    }
  }
}
