/**
 * Following aliases: `Zone.Lookup`, `Zone.externalLookup` and the way back into the server for targets outside the
 * zone. The zone may be replaced while a query runs, so every read of the live zone may see another generation.
 */
module Chase {
  import opened Names
  import opened Records
  import opened ZoneTree
  import opened Lookup
  import opened Resolution
  import opened Zones
  import opened Options

  datatype Result = Success | NameError | Delegation | NoData | ServerFailure

  /**
   * `generations[o]` lists the contents the zone `o` may have while a query runs. `elsewhere` is the next plugin: it gets
   * the names of no zone and the names that fall through. `expires` says for which zones the expired flag may be found set
   * while a query runs. `running` is false when there is no server to go back to.
   */
  datatype Server = Server(
    generations: map<Name, seq<ZoneData>>, elsewhere: (Name, RType) -> Option<Reply>, fall: Name -> bool, expires: Name -> bool,
    running: bool)

  datatype Rcode = NoError | NxDomain | ServFail | Other

  datatype Reply = Reply(rcode: Rcode, answer: seq<RR>)

  // ----- a chain of aliases -----

  predicate IsLink(rr: RR) {
    rr.rtype == TYPE_CNAME
  }

  /** A record that answers the question itself; signatures and DNAMEs only accompany the answer. */
  predicate IsData(rr: RR, qtype: RType) {
    rr.rtype == qtype && qtype != TYPE_CNAME && qtype != TYPE_RRSIG && qtype != TYPE_DNAME
  }

  function LinkCount(rrs: seq<RR>): nat {
    if rrs == [] then 0 else (if IsLink(rrs[0]) then 1 else 0) + LinkCount(rrs[1..])
  }

  /** The name that the links in `rrs` lead to from `q`. */
  function EndOf(rrs: seq<RR>, q: Name): Name {
    if rrs == [] then q else EndOf(rrs[1..], if IsLink(rrs[0]) then TargetOf(rrs[0]) else q)
  }

  /** The links form a path from `q`, and the data are owned by the name the path has reached and end it. */
  ghost predicate Follows(rrs: seq<RR>, q: Name, qtype: RType) {
    rrs == [] ||
    if IsLink(rrs[0]) then rrs[0].owner == q && Follows(rrs[1..], TargetOf(rrs[0]), qtype)
    else (IsData(rrs[0], qtype) ==> rrs[0].owner == q && LinkCount(rrs[1..]) == 0) && Follows(rrs[1..], q, qtype)
  }

  ghost predicate Dataless(rrs: seq<RR>, qtype: RType) {
    forall rr :: rr in rrs ==> !IsData(rr, qtype)
  }

  lemma {:induction false} FollowsAppend(a: seq<RR>, b: seq<RR>, q: Name, qtype: RType)
    requires Follows(a, q, qtype) && Follows(b, EndOf(a, q), qtype) && (Dataless(a, qtype) || LinkCount(b) == 0)
    ensures Follows(a + b, q, qtype) && EndOf(a + b, q) == EndOf(b, EndOf(a, q))
    ensures LinkCount(a + b) == LinkCount(a) + LinkCount(b)
  {
    if a == [] {
      assert a + b == b;
    } else {
      assert (a + b)[0] == a[0] && (a + b)[1..] == a[1..] + b;
      FollowsAppend(a[1..], b, if IsLink(a[0]) then TargetOf(a[0]) else q, qtype);
    }
  }

  /** Records that are neither links nor foreign data leave a chain where it is. */
  lemma {:induction false} Accompanies(rrs: seq<RR>, q: Name, qtype: RType)
    requires forall rr :: rr in rrs ==> !IsLink(rr) && (IsData(rr, qtype) ==> rr.owner == q)
    ensures Follows(rrs, q, qtype) && EndOf(rrs, q) == q && LinkCount(rrs) == 0
  {
    if rrs != [] {
      assert forall rr :: rr in rrs[1..] ==> rr in rrs;
      Accompanies(rrs[1..], q, qtype);
    }
  }

  // ----- zones -----

  /** The node holds records of its own name under their own type, as `Insert` puts them there. */
  ghost predicate OwnRecords(n: Name, e: Elem) {
    forall t :: t in e ==> forall rr :: rr in e[t] ==> rr.rtype == t && rr.owner == n
  }

  /** And at most one alias. */
  ghost predicate NodeValid(n: Name, e: Elem) {
    OwnRecords(n, e) && |OfType(e, TYPE_CNAME)| <= 1
  }

  ghost predicate ZoneOk(z: ZoneData) {
    Ordered(z.tree) && forall n :: n in Contents(z.tree) ==> OwnRecords(n, Contents(z.tree)[n])
  }

  ghost predicate ApexValid(a: Apex, origin: Name) {
    && (a.soa.Some? ==> a.soa.value.rtype == TYPE_SOA && a.soa.value.owner == origin)
    && (forall rr :: rr in a.ns ==> rr.rtype == TYPE_NS && rr.owner == origin)
    && (forall rr :: rr in a.sigsoa + a.signs ==> rr.rtype == TYPE_RRSIG)
  }

  ghost predicate ZoneValid(z: ZoneData) {
    && ZoneOk(z)
    && ApexValid(z.apex, z.origin)
    && forall n :: n in Contents(z.tree) ==> NodeValid(n, Contents(z.tree)[n])
  }

  /** What the lookups need of the server: zones are kept under their origins, as `Insert` builds them. */
  ghost predicate ServerOk(s: Server) {
    forall o :: o in s.generations ==> GenerationsOk(o, s.generations[o])
  }

  ghost predicate GenerationsOk(o: Name, gens: seq<ZoneData>) {
    gens != [] && forall z :: z in gens ==> z.origin == o && ZoneOk(z)
  }

  /** What makes the answers chains: valid zones, and chains from elsewhere too; `ext` bounds the links in those. */
  ghost predicate ServerValid(s: Server, ext: nat) {
    && (forall o, z :: o in s.generations && z in s.generations[o] ==> ZoneValid(z))
    && forall n, t :: s.elsewhere(n, t).Some? ==> AnswerValid(s.elsewhere(n, t).value.answer, n, t, ext)
  }

  /** Every zone that `Insert` has built is good enough, and valid exactly when its SOA is the origin's and no node has two aliases. */
  lemma BuiltZoneValidIff(z: ZoneData)
    requires Built(z)
    ensures ZoneOk(z)
    ensures ZoneValid(z) <==> (z.apex.soa.Some? ==> z.apex.soa.value.owner == z.origin) && SingleAliases(Contents(z.tree))
  {
    forall n | n in Contents(z.tree)
      ensures OwnRecords(n, Contents(z.tree)[n])
    {
      BuiltOwnRecords(z, n);
    }
    var a := z.apex;
    assert forall rr :: rr in a.sigsoa + a.signs ==> rr in a.sigsoa || rr in a.signs;
    assert ApexValid(a, z.origin) <==> (a.soa.Some? ==> a.soa.value.owner == z.origin);
    if ZoneValid(z) {
      forall n | n in Contents(z.tree) ensures |OfType(Contents(z.tree)[n], TYPE_CNAME)| <= 1 {
        assert NodeValid(n, Contents(z.tree)[n]);
      }
      assert SingleAliases(Contents(z.tree));
    }
    if ApexValid(a, z.origin) && SingleAliases(Contents(z.tree)) {
      assert ZoneValid(z);
    }
  }

  ghost predicate SingleAliases(m: Nodes) {
    forall n :: n in m ==> |OfType(m[n], TYPE_CNAME)| <= 1
  }

  lemma BuiltOwnRecords(z: ZoneData, n: Name)
    requires Built(z) && n in Contents(z.tree)
    ensures OwnRecords(n, Contents(z.tree)[n])
  {
    var e := Contents(z.tree)[n];
    forall t: RType, rr: RR | t in e && rr in e[t] ensures rr.rtype == t && rr.owner == n {
      assert InPlace(At(z, n, t), z.origin, n, t);
    }
  }

  ghost predicate AnswerValid(rrs: seq<RR>, q: Name, qtype: RType, bound: nat) {
    Follows(rrs, q, qtype) && LinkCount(rrs) <= bound
  }

  function NodeAt(m: Nodes, n: Name): Option<Elem> {
    if n in m then Some(m[n]) else None
  }

  /** What a read gives when the zone does not change. */
  ghost predicate Reads(s: Server, origin: Name, n: Name, elem: Option<Elem>)
    requires origin in s.generations
  {
    |s.generations[origin]| == 1 ==> elem == NodeAt(Contents(s.generations[origin][0].tree), n)
  }

  /** A read of the live zone: any generation, and in it the node `n`. */
  method SearchLive(s: Server, ghost ext: nat, origin: Name, n: Name) returns (elem: Option<Elem>)
    requires ServerOk(s) && origin in s.generations
    ensures elem.Some? && ServerValid(s, ext) ==> NodeValid(n, elem.value)
    ensures Reads(s, origin, n, elem)
  {
    var z := Generation(s.generations[origin], origin);
    elem := Get(z.tree, n);
    if ServerValid(s, ext) { assert ZoneValid(z); }
  }

  method Generation(gens: seq<ZoneData>, origin: Name) returns (z: ZoneData)
    requires GenerationsOk(origin, gens)
    ensures z in gens && z.origin == origin && ZoneOk(z)
    ensures |gens| == 1 ==> z == gens[0]
  {
    var i :| 0 <= i < |gens|;
    z := gens[i];
  }

  /** The server hands the query to the zone with the longest matching origin. */
  method ZoneFor(s: Server, q: Name) returns (o: Option<Name>)
    ensures if o.Some? then IsZoneFor(s, q, o.value) else NoZoneFor(s, q)
  {
    var d := |q|;
    while d >= 0
      invariant -1 <= d <= |q|
      invariant forall e: nat :: d < e <= |q| ==> Tail(q, e) !in s.generations
    {
      if Tail(q, d) in s.generations {
        return Some(Tail(q, d));
      }
      d := d - 1;
    }
    return None;
  }

  function SigsFor(e: Elem, t: RType, do: bool): (r: seq<RR>)
    ensures forall rr :: rr in r ==> rr.rtype == TYPE_RRSIG
  {
    if do then Signatures(OfType(e, TYPE_RRSIG), t) else []
  }

  /** `TypeForWildcard`: the records with the query name as their owner. */
  function Renamed(rrs: seq<RR>, q: Name): (r: seq<RR>)
    ensures |r| == |rrs| && forall i :: 0 <= i < |rrs| ==> r[i] == rrs[i].(owner := q)
  {
    seq(|rrs|, i requires 0 <= i < |rrs| => rrs[i].(owner := q))
  }

  /** `synthesizeCNAME`: put the target of the DNAME where its owner ends in the query name. */
  function Synthesize(q: Name, dname: RR): Option<RR> {
    if IsSub(dname.owner, q) && q != dname.owner
    then Some(RR(q, TYPE_CNAME, dname.ttl, Target(q[..|q| - |dname.owner|] + TargetOf(dname))))
    else None
  }

  /** Signatures are added only for those who asked, and then exactly the ones over the type, in order. */
  lemma SigsForIs(e: Elem, t: RType, do: bool)
    ensures SigsFor(e, t, do) == if do then Only(OfType(e, TYPE_RRSIG), SigOver(t)) else []
  {
    SignaturesOnly(OfType(e, TYPE_RRSIG), t);
  }

  /** Section 2.2 of RFC 6672: below the owner of the DNAME, and only there, the owner is replaced by the target. */
  lemma SynthesizeSubstitutes(q: Name, owner: Name, target: Name, ttl: nat)
    ensures var r := Synthesize(q, RR(owner, TYPE_DNAME, ttl, Target(target)));
      && (forall p: Name :: p != [] && q == p + owner ==> r == Some(RR(q, TYPE_CNAME, ttl, Target(p + target))))
      && (r.Some? ==> exists p: Name :: p != [] && q == p + owner)
  {
    forall p: Name | p != [] && q == p + owner ensures IsSub(owner, q) && q[..|q| - |owner|] == p {
      assert q[|q| - |owner|..] == owner;
    }
    if IsSub(owner, q) && q != owner {
      assert q == q[..|q| - |owner|] + owner;
    }
  }

  // ----- one level: externalLookup -----

  /** Whether the target has to be resolved by the server again, lookup.go:326 and 346. */
  predicate LeavesZone(elem: Option<Elem>, qtype: RType, target: Name, origin: Name) {
    elem.None? || qtype == TYPE_NS || (qtype == TYPE_SOA && target == origin)
  }

  /** Where the aliases of one zone lead: to an end inside it, or out to a target for the server. */
  datatype Trail = Ends(rrs: seq<RR>) | Leaves(rrs: seq<RR>, target: Name)

  function Prepend(rrs: seq<RR>, t: Trail): Trail {
    t.(rrs := rrs + t.rrs)
  }

  /** The aliases, with signatures, from `target` on; nine more are followed, and data or the way out end the trail. */
  function Onward(m: Nodes, origin: Name, qtype: RType, do: bool, target: Name, i: nat): Trail
    decreases 9 - i
  {
    var node := NodeAt(m, target);
    if LeavesZone(node, qtype, target, origin) then Leaves([], target)
    else if i > 8 then Ends([])
    else
      var e := node.value;
      var cname, data := OfType(e, TYPE_CNAME), OfType(e, qtype);
      if cname == [] then Ends(data + if data == [] then [] else SigsFor(e, qtype, do))
      else Prepend(cname + SigsFor(e, TYPE_CNAME, do), Onward(m, origin, qtype, do, TargetOf(cname[0]), i + 1))
  }

  /**
   * The cases of a trail: a target that is not stored leaves the zone, and so does every target of an NS question and the
   * apex for a SOA question; any other stored target ends the trail with its data or leads on through its aliases.
   */
  lemma TrailFrom(m: Nodes, origin: Name, qtype: RType, do: bool, target: Name, i: nat)
    ensures target !in m || qtype == TYPE_NS || (qtype == TYPE_SOA && target == origin) ==>
      Onward(m, origin, qtype, do, target, i) == Leaves([], target)
    ensures target in m && qtype != TYPE_NS && (qtype != TYPE_SOA || target != origin) && i > 8 ==>
      Onward(m, origin, qtype, do, target, i) == Ends([])
    ensures target in m && qtype != TYPE_NS && (qtype != TYPE_SOA || target != origin) && i <= 8 ==>
      var e := m[target];
      if OfType(e, TYPE_CNAME) != [] then
        var more := Onward(m, origin, qtype, do, TargetOf(OfType(e, TYPE_CNAME)[0]), i + 1);
        Onward(m, origin, qtype, do, target, i) == more.(rrs := OfType(e, TYPE_CNAME) + SigsFor(e, TYPE_CNAME, do) + more.rrs)
      else if OfType(e, qtype) != [] then Onward(m, origin, qtype, do, target, i) == Ends(OfType(e, qtype) + SigsFor(e, qtype, do))
      else Onward(m, origin, qtype, do, target, i) == Ends([])
  {
  }

  /** What the server makes of the target of an alias. */
  ghost predicate Means(reply: Option<Reply>, answer: seq<RR>, result: Result) {
    match reply
    case None => answer == [] && result == Success
    case Some(m) =>
      && answer == m.answer
      && (m.rcode == NxDomain ==> result == NameError)
      && (m.rcode == ServFail ==> result == ServerFailure)
      && (m.rcode == NoError ==> result == if m.answer == [] then NoData else Success)
      && (m.rcode == Other ==> result == Success)
  }

  /** The lookup of a target through the server. */
  ghost predicate Resolved(s: Server, q: Name, qtype: RType, do: bool, loop: nat, answer: seq<RR>, result: Result) {
    if !s.running then answer == [] && result == ServerFailure
    else exists reply :: Served(s, q, qtype, do, loop, reply) && Means(reply, answer, result)
  }

  /** The answer is the whole trail and, where the trail leaves the zone, what the server has for the target. */
  ghost predicate Completes(s: Server, qtype: RType, do: bool, loop: nat, t: Trail, answer: seq<RR>, result: Result) {
    match t
    case Ends(rrs) => answer == rrs && result == Success
    case Leaves(rrs, target) => exists more :: answer == rrs + more && Resolved(s, target, qtype, do, loop, more, result)
  }

  /** The aliases with their signatures start the answer; in a zone that does not change the rest is their trail. */
  ghost predicate Chased(s: Server, origin: Name, qtype: RType, do: bool, loop: nat, elem: Elem, aliases: seq<RR>, answer: seq<RR>, result: Result) {
    && aliases != [] && aliases + SigsFor(elem, TYPE_CNAME, do) <= answer
    && (origin in s.generations && |s.generations[origin]| == 1 ==>
          Completes(s, qtype, do, loop,
                    Prepend(aliases + SigsFor(elem, TYPE_CNAME, do),
                            Onward(Contents(s.generations[origin][0].tree), origin, qtype, do, TargetOf(aliases[0]), 0)), answer, result))
  }

  lemma PrependTwice(a: seq<RR>, b: seq<RR>, t: Trail)
    ensures Prepend(a, Prepend(b, t)) == Prepend(a + b, t)
  {
    assert a + (b + t.rrs) == a + b + t.rrs;
  }

  lemma AliasStep(rrs: seq<RR>, alias: RR, sigs: seq<RR>, q: Name, qtype: RType)
    requires Follows(rrs, q, qtype) && Dataless(rrs, qtype) && IsLink(alias) && alias.owner == EndOf(rrs, q)
    requires qtype != TYPE_CNAME && forall rr :: rr in sigs ==> rr.rtype == TYPE_RRSIG
    ensures var r := rrs + [alias] + sigs;
      Follows(r, q, qtype) && Dataless(r, qtype) && EndOf(r, q) == TargetOf(alias) && LinkCount(r) == LinkCount(rrs) + 1
  {
    AliasAnswer(alias, EndOf(rrs, q), qtype);
    FollowsAppend(rrs, [alias], q, qtype);
    Accompanies(sigs, TargetOf(alias), qtype);
    FollowsAppend(rrs + [alias], sigs, q, qtype);
  }

  lemma DataStep(rrs: seq<RR>, e: Elem, q: Name, qtype: RType, sigs: seq<RR>)
    requires Follows(rrs, q, qtype) && NodeValid(EndOf(rrs, q), e) && qtype != TYPE_CNAME
    requires forall rr :: rr in sigs ==> rr.rtype == TYPE_RRSIG
    ensures Follows(rrs + OfType(e, qtype) + sigs, q, qtype) && LinkCount(rrs + OfType(e, qtype) + sigs) == LinkCount(rrs)
  {
    Accompanies(OfType(e, qtype), EndOf(rrs, q), qtype);
    FollowsAppend(rrs, OfType(e, qtype), q, qtype);
    Accompanies(sigs, EndOf(rrs, q), qtype);
    FollowsAppend(rrs + OfType(e, qtype), sigs, q, qtype);
  }

  /** The links that a lookup with loop counter `loop` may still add: ten for each level that is left. */
  function LinkBudget(loop: nat, ext: nat): nat {
    (if loop > 8 then 0 else 10 * (9 - loop)) + ext
  }

  lemma OnwardStep(m: Nodes, origin: Name, qtype: RType, do: bool, target: Name, i: nat, rrs: seq<RR>)
    requires target in m && !LeavesZone(Some(m[target]), qtype, target, origin) && i <= 8 && OfType(m[target], TYPE_CNAME) != []
    ensures var cname, sigs := OfType(m[target], TYPE_CNAME), SigsFor(m[target], TYPE_CNAME, do);
      Prepend(rrs, Onward(m, origin, qtype, do, target, i)) ==
      Prepend(rrs + cname + sigs, Onward(m, origin, qtype, do, TargetOf(cname[0]), i + 1))
  {
    var cname, sigs := OfType(m[target], TYPE_CNAME), SigsFor(m[target], TYPE_CNAME, do);
    PrependTwice(rrs, cname + sigs, Onward(m, origin, qtype, do, TargetOf(cname[0]), i + 1));
    assert rrs + (cname + sigs) == rrs + cname + sigs;
  }

  /** The links so far form a chain from `q` to `target` that still waits for its data. */
  ghost predicate Underway(rrs: seq<RR>, q: Name, qtype: RType, target: Name, links: nat) {
    Follows(rrs, q, qtype) && Dataless(rrs, qtype) && EndOf(rrs, q) == target && LinkCount(rrs) == links
  }

  /** Behind `rrs` the trail from `start` goes on at `target`, if the zone does not change. */
  ghost predicate OnTrail(s: Server, origin: Name, qtype: RType, do: bool, head: seq<RR>, start: Name, rrs: seq<RR>, target: Name, i: nat)
    requires origin in s.generations
  {
    |s.generations[origin]| == 1 ==>
      var m := Contents(s.generations[origin][0].tree);
      Prepend(head, Onward(m, origin, qtype, do, start, 0)) == Prepend(rrs, Onward(m, origin, qtype, do, target, i))
  }

  lemma TrailStep(s: Server, origin: Name, qtype: RType, do: bool, head: seq<RR>, start: Name, rrs: seq<RR>, target: Name, i: nat, e: Elem)
    requires origin in s.generations && Reads(s, origin, target, Some(e)) && OnTrail(s, origin, qtype, do, head, start, rrs, target, i)
    requires !LeavesZone(Some(e), qtype, target, origin) && i <= 8 && OfType(e, TYPE_CNAME) != []
    ensures var cname, sigs := OfType(e, TYPE_CNAME), SigsFor(e, TYPE_CNAME, do);
      OnTrail(s, origin, qtype, do, head, start, rrs + cname + sigs, TargetOf(cname[0]), i + 1)
  {
    if |s.generations[origin]| == 1 {
      OnwardStep(Contents(s.generations[origin][0].tree), origin, qtype, do, target, i, rrs);
    }
  }

  lemma ChainStep(q: Name, qtype: RType, do: bool, rrs: seq<RR>, target: Name, links: nat, e: Elem)
    requires Underway(rrs, q, qtype, target, links) && NodeValid(target, e) && qtype != TYPE_CNAME && OfType(e, TYPE_CNAME) != []
    ensures var cname, sigs := OfType(e, TYPE_CNAME), SigsFor(e, TYPE_CNAME, do);
      Underway(rrs + cname + sigs, q, qtype, TargetOf(cname[0]), links + 1)
  {
    var cname := OfType(e, TYPE_CNAME);
    assert cname == [cname[0]];
    AliasStep(rrs, cname[0], SigsFor(e, TYPE_CNAME, do), q, qtype);
  }

  /** How far the loop has come: the answer so far, the target it has reached and what a read of that target gave. */
  ghost predicate Reached(
    s: Server, ext: nat, origin: Name, q: Name, qtype: RType, do: bool, head: seq<RR>, start: Name, rrs: seq<RR>, target: Name, i: nat,
    found: Option<Elem>)
    requires origin in s.generations
  {
    && head <= rrs && Reads(s, origin, target, found) && OnTrail(s, origin, qtype, do, head, start, rrs, target, i)
    && (ServerValid(s, ext) && Underway(head, q, qtype, start, 1) ==>
          Underway(rrs, q, qtype, target, i + 1) && (found.Some? ==> NodeValid(target, found.value)))
  }

  /** One turn of that loop: append the aliases of the node and read the target of the first. */
  method Hop(
    s: Server, ghost ext: nat, origin: Name, ghost q: Name, qtype: RType, do: bool, ghost head: seq<RR>, ghost start: Name,
    rrs: seq<RR>, target: Name, e: Elem, ghost i: nat)
    returns (rrs': seq<RR>, target': Name, found: Option<Elem>)
    requires ServerOk(s) && origin in s.generations && qtype != TYPE_CNAME && OfType(e, TYPE_CNAME) != [] && i <= 8
    requires !LeavesZone(Some(e), qtype, target, origin) && Reached(s, ext, origin, q, qtype, do, head, start, rrs, target, i, Some(e))
    ensures Reached(s, ext, origin, q, qtype, do, head, start, rrs', target', i + 1, found)
  {
    var cname := OfType(e, TYPE_CNAME);
    TrailStep(s, origin, qtype, do, head, start, rrs, target, i, e);
    if ServerValid(s, ext) && Underway(head, q, qtype, start, 1) { ChainStep(q, qtype, do, rrs, target, i + 1, e); }
    rrs' := rrs + cname + SigsFor(e, TYPE_CNAME, do);
    target' := TargetOf(cname[0]);
    found := SearchLive(s, ext, origin, target');
  }

  /** The read before that loop, lookup.go:325. */
  method Depart(s: Server, ghost ext: nat, origin: Name, ghost q: Name, qtype: RType, do: bool, head: seq<RR>, start: Name)
    returns (found: Option<Elem>)
    requires ServerOk(s) && origin in s.generations
    ensures Reached(s, ext, origin, q, qtype, do, head, start, head, start, 0, found)
  {
    found := SearchLive(s, ext, origin, start);
  }

  /**
   * The loop of `externalLookup`, lookup.go:332-358: follow the first alias of each node inside the zone. It ends at a
   * target that leaves the zone, after nine more aliases, or at a node without alias. `found` is what the last read gave.
   */
  method FollowAliases(s: Server, ghost ext: nat, origin: Name, ghost q: Name, qtype: RType, do: bool, head: seq<RR>, start: Name)
    returns (rrs: seq<RR>, target: Name, found: Option<Elem>, i: nat)
    requires ServerOk(s) && origin in s.generations && qtype != TYPE_CNAME
    ensures Reached(s, ext, origin, q, qtype, do, head, start, rrs, target, i, found)
    ensures i <= 9 && (LeavesZone(found, qtype, target, origin) || OfType(found.value, TYPE_CNAME) == [] || i == 9)
  {
    rrs, target, i := head, start, 0;
    found := Depart(s, ext, origin, q, qtype, do, head, start);
    while !LeavesZone(found, qtype, target, origin) && OfType(found.value, TYPE_CNAME) != [] && i <= 8
      invariant i <= 9 && Reached(s, ext, origin, q, qtype, do, head, start, rrs, target, i, found)
      decreases 9 - i
    {
      rrs, target, found := Hop(s, ext, origin, q, qtype, do, head, start, rrs, target, found.value, i);
      i := i + 1;
    }
  }

  /** The alias records start a chain at `q`. */
  ghost predicate StartsAt(aliases: seq<RR>, q: Name) {
    |aliases| == 1 && IsLink(aliases[0]) && aliases[0].owner == q
  }

  /**
   * `Zone.externalLookup`: follow the aliases found for `q` through the zone, at most nine nodes further, and hand a
   * target that is not in the zone back to the server. It ends for every server; the answer is a chain if the zones are
   * valid.
   */
  method ExternalLookup(s: Server, ghost ext: nat, origin: Name, q: Name, qtype: RType, do: bool, loop: nat, elem: Elem, aliases: seq<RR>)
    returns (answer: seq<RR>, result: Result)
    requires ServerOk(s) && origin in s.generations && loop <= 9 && aliases != [] && qtype != TYPE_CNAME
    ensures ServerValid(s, ext) && StartsAt(aliases, q) ==> AnswerValid(answer, q, qtype, 10 + LinkBudget(loop, ext))
    ensures Chased(s, origin, qtype, do, loop, elem, aliases, answer, result)
    decreases 10 - loop, 7
  {
    ghost var valid := ServerValid(s, ext) && StartsAt(aliases, q);
    var head := aliases + SigsFor(elem, TYPE_CNAME, do);
    if valid { ChainStart(aliases, SigsFor(elem, TYPE_CNAME, do), q, qtype); }
    var rrs, target, found, i := FollowAliases(s, ext, origin, q, qtype, do, head, TargetOf(aliases[0]));
    if LeavesZone(found, qtype, target, origin) {
      TrailLeaves(s, origin, qtype, do, head, TargetOf(aliases[0]), rrs, target, i, found);
      var more, r := DoLookup(s, ext, target, qtype, do, loop);
      if valid { FollowsAppend(rrs, more, q, qtype); }
      return rrs + more, r;
    }
    TrailEnds(s, origin, qtype, do, head, TargetOf(aliases[0]), rrs, target, i, found.value);
    if i > 8 {
      return rrs, Success;
    }
    var targets := OfType(found.value, qtype);
    var sigs := if targets == [] then [] else SigsFor(found.value, qtype, do);
    if valid { DataStep(rrs, found.value, q, qtype, sigs); }
    answer, result := rrs + targets + sigs, Success;
  }

  lemma ChainStart(aliases: seq<RR>, sigs: seq<RR>, q: Name, qtype: RType)
    requires StartsAt(aliases, q) && qtype != TYPE_CNAME && forall rr :: rr in sigs ==> rr.rtype == TYPE_RRSIG
    ensures Underway(aliases + sigs, q, qtype, TargetOf(aliases[0]), 1)
  {
    assert aliases == [aliases[0]] == [] + [aliases[0]];
    AliasStep([], aliases[0], sigs, q, qtype);
  }

  lemma TrailLeaves(s: Server, origin: Name, qtype: RType, do: bool, head: seq<RR>, start: Name, rrs: seq<RR>, target: Name, i: nat, found: Option<Elem>)
    requires origin in s.generations && OnTrail(s, origin, qtype, do, head, start, rrs, target, i)
    requires Reads(s, origin, target, found) && LeavesZone(found, qtype, target, origin)
    ensures |s.generations[origin]| == 1 ==>
      Prepend(head, Onward(Contents(s.generations[origin][0].tree), origin, qtype, do, start, 0)) == Leaves(rrs, target)
  {
    assert rrs + [] == rrs;
  }

  /** Where the loop stops inside the zone, the trail has nothing more to give than the data at that node. */
  lemma TrailEnds(s: Server, origin: Name, qtype: RType, do: bool, head: seq<RR>, start: Name, rrs: seq<RR>, target: Name, i: nat, e: Elem)
    requires origin in s.generations && OnTrail(s, origin, qtype, do, head, start, rrs, target, i)
    requires Reads(s, origin, target, Some(e)) && !LeavesZone(Some(e), qtype, target, origin) && (OfType(e, TYPE_CNAME) == [] || i > 8)
    ensures |s.generations[origin]| == 1 ==>
      Prepend(head, Onward(Contents(s.generations[origin][0].tree), origin, qtype, do, start, 0)) ==
      if i > 8 then Ends(rrs) else Ends(rrs + OfType(e, qtype) + if OfType(e, qtype) == [] then [] else SigsFor(e, qtype, do))
  {
    if |s.generations[origin]| == 1 {
      EndAt(Contents(s.generations[origin][0].tree), origin, qtype, do, rrs, target, i);
    }
  }

  lemma EndAt(m: Nodes, origin: Name, qtype: RType, do: bool, rrs: seq<RR>, target: Name, i: nat)
    requires target in m && !LeavesZone(Some(m[target]), qtype, target, origin) && (OfType(m[target], TYPE_CNAME) == [] || i > 8)
    ensures Prepend(rrs, Onward(m, origin, qtype, do, target, i)) ==
      if i > 8 then Ends(rrs)
      else Ends(rrs + OfType(m[target], qtype) + if OfType(m[target], qtype) == [] then [] else SigsFor(m[target], qtype, do))
  {
    var data := OfType(m[target], qtype);
    var sigs := if data == [] then [] else SigsFor(m[target], qtype, do);
    assert rrs + [] == rrs && rrs + (data + sigs) == rrs + data + sigs;
  }

  // ----- the way through the server -----

  /** `Zone.doLookup`: what the server's reply means for the alias that led to it. */
  method DoLookup(s: Server, ghost ext: nat, q: Name, qtype: RType, do: bool, loop: nat)
    returns (answer: seq<RR>, result: Result)
    requires ServerOk(s) && loop <= 9
    ensures ServerValid(s, ext) ==> AnswerValid(answer, q, qtype, LinkBudget(loop, ext))
    ensures Resolved(s, q, qtype, do, loop, answer, result)
    decreases 10 - loop, 6
  {
    if !s.running {
      return [], ServerFailure;
    }
    var m := Serve(s, ext, q, qtype, do, loop);
    if m.None? {
      assert Means(m, [], Success);
      return [], Success;
    }
    answer := m.value.answer;
    match m.value.rcode
    case NxDomain => result := NameError;
    case ServFail => result := ServerFailure;
    case NoError => result := if answer == [] then NoData else Success;
    case Other => result := Success;
    assert Means(m, answer, result);
  }

  /** The zone that answers for `q`: the one with the longest origin. */
  ghost predicate IsZoneFor(s: Server, q: Name, o: Name) {
    o in s.generations && IsSub(o, q) && forall d: nat :: |o| < d <= |q| ==> Tail(q, d) !in s.generations
  }

  ghost predicate NoZoneFor(s: Server, q: Name) {
    forall d: nat :: d <= |q| ==> Tail(q, d) !in s.generations
  }

  /** The reply that is written for an answer and a result. */
  ghost predicate Writes(s: Server, q: Name, qtype: RType, answer: seq<RR>, result: Result, m: Option<Reply>) {
    if answer == [] && (result == NameError || result == Success) && s.fall(q) then m == s.elsewhere(q, qtype)
    else
      && m.Some? && m.value.answer == answer
      && (result == NameError ==> m.value.rcode == NxDomain)
      && (result == ServerFailure ==> m.value.rcode == ServFail)
      && (result != NameError && result != ServerFailure ==> m.value.rcode == NoError)
  }

  /** The lookup in some generation of the zone decides the reply. */
  ghost predicate Answered(s: Server, o: Name, q: Name, qtype: RType, do: bool, loop: nat, m: Option<Reply>)
    requires o in s.generations
  {
    exists z, answer, result :: z in s.generations[o] && LooksUp(z, q, qtype, do, loop, answer, result) && Writes(s, q, qtype, answer, result, m)
  }

  /** How the server replies: transfers are refused, a zone found expired fails, and else the zone is looked up. */
  ghost predicate Served(s: Server, q: Name, qtype: RType, do: bool, loop: nat, m: Option<Reply>) {
    (NoZoneFor(s, q) && m == s.elsewhere(q, qtype)) || exists o :: IsZoneFor(s, q, o) && ServedBy(s, o, q, qtype, do, loop, m)
  }

  ghost predicate ServedBy(s: Server, o: Name, q: Name, qtype: RType, do: bool, loop: nat, m: Option<Reply>)
    requires o in s.generations
  {
    if qtype == TYPE_AXFR || qtype == TYPE_IXFR then m == Some(Reply(Other, []))
    else (s.expires(o) && m == Some(Reply(ServFail, []))) || Answered(s, o, q, qtype, do, loop, m)
  }

  /** `File.ServeDNS` as the upstream sees it. A zone that expires may be found expired by any request. */
  method Serve(s: Server, ghost ext: nat, q: Name, qtype: RType, do: bool, loop: nat) returns (m: Option<Reply>)
    requires ServerOk(s) && loop <= 9
    ensures ServerValid(s, ext) && m.Some? ==> AnswerValid(m.value.answer, q, qtype, LinkBudget(loop, ext))
    ensures Served(s, q, qtype, do, loop, m)
    decreases 10 - loop, 5
  {
    var o := ZoneFor(s, q);
    if o.None? {
      return s.elsewhere(q, qtype);
    }
    m := ServeZone(s, ext, o.value, q, qtype, do, loop);
  }

  method ServeZone(s: Server, ghost ext: nat, o: Name, q: Name, qtype: RType, do: bool, loop: nat) returns (m: Option<Reply>)
    requires ServerOk(s) && loop <= 9 && o in s.generations && IsSub(o, q)
    ensures ServerValid(s, ext) && m.Some? ==> AnswerValid(m.value.answer, q, qtype, LinkBudget(loop, ext))
    ensures ServedBy(s, o, q, qtype, do, loop, m)
    decreases 10 - loop, 4
  {
    if qtype == TYPE_AXFR || qtype == TYPE_IXFR {
      return Some(Reply(Other, []));
    }
    var expired: bool := *;
    if s.expires(o) && expired {
      return Some(Reply(ServFail, []));
    }
    var z := Generation(s.generations[o], o);
    if ServerValid(s, ext) { assert ZoneValid(z); }
    var answer, result := LookupAnswer(s, ext, z, q, qtype, do, loop);
    m := WriteReply(s, q, qtype, answer, result);
    IsAnswered(s, o, z, q, qtype, do, loop, answer, result, m);
  }

  method WriteReply(s: Server, q: Name, qtype: RType, answer: seq<RR>, result: Result) returns (m: Option<Reply>)
    ensures Writes(s, q, qtype, answer, result, m)
    ensures m == s.elsewhere(q, qtype) || (m.Some? && m.value.answer == answer)
  {
    if answer == [] && (result == NameError || result == Success) && s.fall(q) {
      return s.elsewhere(q, qtype);
    }
    return Some(Reply(if result == NameError then NxDomain else if result == ServerFailure then ServFail else NoError, answer));
  }

  lemma IsAnswered(
    s: Server, o: Name, z: ZoneData, q: Name, qtype: RType, do: bool, loop: nat, answer: seq<RR>, result: Result, m: Option<Reply>)
    requires o in s.generations && z in s.generations[o]
    requires LooksUp(z, q, qtype, do, loop, answer, result) && Writes(s, q, qtype, answer, result, m)
    ensures Answered(s, o, q, qtype, do, loop, m)
  {
  }

  // ----- the answers of one lookup -----

  /** lookup.go:112-143: the DNAME, the alias synthesized from it and whatever that alias leads to. */
  method AnswerRedirect(s: Server, ghost ext: nat, z: ZoneData, q: Name, qtype: RType, do: bool, loop: nat, n: Name)
    returns (answer: seq<RR>, result: Result)
    requires ServerOk(s) && z.origin in s.generations && ZoneOk(z) && loop <= 8
    requires n in Contents(z.tree) && OfType(Contents(z.tree)[n], TYPE_DNAME) != [] && IsSub(n, q) && n != q
    ensures ServerValid(s, ext) ==> AnswerValid(answer, q, qtype, LinkBudget(loop, ext))
    ensures RedirectedBy(Contents(z.tree)[n], q, qtype, do, answer, result)
    ensures Pursues(s, z, q, qtype, do, loop, Redirect(n), answer, result)
    decreases 10 - loop, 1
  {
    var elem := Get(z.tree, n);
    assert OwnRecords(n, elem.value);
    var dnames := OfType(elem.value, TYPE_DNAME);
    assert dnames[0] in dnames;
    var alias := Synthesize(q, dnames[0]);
    answer, result := AnswerAlias(s, ext, z.origin, q, qtype, do, loop, elem.value, alias.value);
    var head := dnames + SigsFor(elem.value, TYPE_DNAME, do);
    if ServerValid(s, ext) { RedirectChain(head, answer, q, qtype); }
    RedirectHead(s, z.origin, q, qtype, do, loop, elem.value, alias.value, answer, result);
    answer := head + answer;
  }

  /** lookup.go:121-130: the alias alone if it was asked for, or whatever it leads to. */
  method AnswerAlias(s: Server, ghost ext: nat, origin: Name, q: Name, qtype: RType, do: bool, loop: nat, elem: Elem, alias: RR)
    returns (answer: seq<RR>, result: Result)
    requires ServerOk(s) && origin in s.generations && loop <= 8 && IsLink(alias) && alias.owner == q
    ensures ServerValid(s, ext) ==> AnswerValid(answer, q, qtype, LinkBudget(loop, ext))
    ensures if qtype == TYPE_CNAME then answer == [alias] && result == Success
            else Chased(s, origin, qtype, do, loop + 1, elem, [alias], answer, result)
    decreases 10 - loop, 0
  {
    if qtype == TYPE_CNAME {
      AliasAnswer(alias, q, qtype);
      return [alias], Success;
    }
    answer, result := ExternalLookup(s, ext, origin, q, qtype, do, loop + 1, elem, [alias]);
  }

  lemma RedirectHead(
    s: Server, origin: Name, q: Name, qtype: RType, do: bool, loop: nat, e: Elem, alias: RR, rest: seq<RR>, result: Result)
    requires OfType(e, TYPE_DNAME) != [] && Synthesize(q, OfType(e, TYPE_DNAME)[0]) == Some(alias)
    requires if qtype == TYPE_CNAME then rest == [alias] && result == Success else Chased(s, origin, qtype, do, loop + 1, e, [alias], rest, result)
    ensures var answer := OfType(e, TYPE_DNAME) + SigsFor(e, TYPE_DNAME, do) + rest;
      && RedirectedBy(e, q, qtype, do, answer, result)
      && (qtype != TYPE_CNAME ==> Redirected(s, origin, q, qtype, do, loop, e, answer, result))
  {
    var head := OfType(e, TYPE_DNAME) + SigsFor(e, TYPE_DNAME, do);
    assert (head + rest)[..|head| + 1] == head + [alias];
  }

  lemma RedirectChain(head: seq<RR>, answer: seq<RR>, q: Name, qtype: RType)
    requires Follows(answer, q, qtype) && forall rr :: rr in head ==> rr.rtype == TYPE_DNAME || rr.rtype == TYPE_RRSIG
    ensures Follows(head + answer, q, qtype) && LinkCount(head + answer) == LinkCount(answer)
  {
    Accompanies(head, q, qtype);
    FollowsAppend(head, answer, q, qtype);
  }

  lemma AliasAnswer(alias: RR, q: Name, qtype: RType)
    requires IsLink(alias) && alias.owner == q
    ensures Follows([alias], q, qtype) && LinkCount([alias]) == 1 && EndOf([alias], q) == TargetOf(alias)
  {
    assert [alias][1..] == [] && EndOf([], TargetOf(alias)) == TargetOf(alias);
  }

  /** lookup.go:172-200: the node itself answers, through its alias if it has one. */
  method AnswerNode(s: Server, ghost ext: nat, z: ZoneData, q: Name, qtype: RType, do: bool, loop: nat)
    returns (answer: seq<RR>, result: Result)
    requires ServerOk(s) && z.origin in s.generations && ZoneOk(z) && loop <= 8 && q in Contents(z.tree)
    ensures ServerValid(s, ext) && ZoneValid(z) ==> AnswerValid(answer, q, qtype, LinkBudget(loop, ext))
    ensures var e := Contents(z.tree)[q]; NodeAnswers(OfType(e, TYPE_CNAME), OfType(e, qtype), SigsFor(e, qtype, do), qtype, answer, result)
    ensures Pursues(s, z, q, qtype, do, loop, Found(q), answer, result)
    decreases 10 - loop, 1
  {
    var elem := Get(z.tree, q);
    assert OwnRecords(q, elem.value);
    var cname := OfType(elem.value, TYPE_CNAME);
    if cname != [] && qtype != TYPE_CNAME {
      if ZoneValid(z) { OnlyAlias(elem.value, q); }
      answer, result := ExternalLookup(s, ext, z.origin, q, qtype, do, loop + 1, elem.value, cname);
      return;
    }
    var rrs := OfType(elem.value, qtype);
    if rrs == [] {
      return [], NoData;
    }
    if ZoneValid(z) { DirectChain(rrs, SigsFor(elem.value, qtype, do), q, qtype); }
    answer, result := rrs + SigsFor(elem.value, qtype, do), Success;
  }

  lemma OnlyAlias(e: Elem, q: Name)
    requires NodeValid(q, e) && OfType(e, TYPE_CNAME) != []
    ensures StartsAt(OfType(e, TYPE_CNAME), q)
  {
    assert OfType(e, TYPE_CNAME)[0] in e[TYPE_CNAME];
  }

  /** Records of the type asked for at the name asked for, and signatures. */
  lemma DirectChain(rrs: seq<RR>, sigs: seq<RR>, q: Name, qtype: RType)
    requires (forall rr :: rr in rrs ==> rr.rtype == qtype && rr.owner == q) && (qtype == TYPE_CNAME ==> |rrs| <= 1)
    requires forall rr :: rr in sigs ==> rr.rtype == TYPE_RRSIG
    ensures Follows(rrs + sigs, q, qtype) && LinkCount(rrs + sigs) <= 1 && (qtype != TYPE_CNAME ==> LinkCount(rrs + sigs) == 0)
  {
    if qtype == TYPE_CNAME && rrs != [] {
      AliasAnswer(rrs[0], q, qtype);
      assert rrs == [rrs[0]];
    } else {
      Accompanies(rrs, q, qtype);
    }
    WithSignatures(rrs, sigs, q, qtype);
  }

  lemma WithSignatures(rrs: seq<RR>, sigs: seq<RR>, q: Name, qtype: RType)
    requires Follows(rrs, q, qtype) && forall rr :: rr in sigs ==> rr.rtype == TYPE_RRSIG
    ensures Follows(rrs + sigs, q, qtype) && LinkCount(rrs + sigs) == LinkCount(rrs)
  {
    Accompanies(sigs, EndOf(rrs, q), qtype);
    FollowsAppend(rrs, sigs, q, qtype);
  }

  /** lookup.go:206-242: the wildcard answers with its records renamed to the query name. */
  method AnswerWildcard(s: Server, ghost ext: nat, z: ZoneData, q: Name, qtype: RType, do: bool, loop: nat, w: Name)
    returns (answer: seq<RR>, result: Result)
    requires ServerOk(s) && z.origin in s.generations && ZoneOk(z) && loop <= 8 && w in Contents(z.tree)
    ensures ServerValid(s, ext) && ZoneValid(z) ==> AnswerValid(answer, q, qtype, LinkBudget(loop, ext))
    ensures var e := Contents(z.tree)[w];
      NodeAnswers(Renamed(OfType(e, TYPE_CNAME), q), Renamed(OfType(e, qtype), q), Renamed(SigsFor(e, qtype, do), q), qtype, answer, result)
    ensures Pursues(s, z, q, qtype, do, loop, Wild(w), answer, result)
    decreases 10 - loop, 1
  {
    var elem := Get(z.tree, w);
    assert OwnRecords(w, elem.value);
    var cname := Renamed(OfType(elem.value, TYPE_CNAME), q);
    if cname != [] && qtype != TYPE_CNAME {
      if ZoneValid(z) { RenamedAlias(elem.value, w, q); }
      answer, result := ExternalLookup(s, ext, z.origin, q, qtype, do, loop + 1, elem.value, cname);
      return;
    }
    var rrs := Renamed(OfType(elem.value, qtype), q);
    if rrs == [] {
      return [], NoData;
    }
    var sigs := SigsFor(elem.value, qtype, do);
    RenamedTypes(OfType(elem.value, qtype), q, qtype);
    RenamedTypes(sigs, q, TYPE_RRSIG);
    if ZoneValid(z) { DirectChain(rrs, Renamed(sigs, q), q, qtype); }
    answer, result := rrs + Renamed(sigs, q), Success;
  }

  lemma RenamedAlias(e: Elem, w: Name, q: Name)
    requires NodeValid(w, e) && OfType(e, TYPE_CNAME) != []
    ensures StartsAt(Renamed(OfType(e, TYPE_CNAME), q), q)
  {
    OnlyAlias(e, w);
  }

  lemma RenamedTypes(rrs: seq<RR>, q: Name, t: RType)
    requires forall rr :: rr in rrs ==> rr.rtype == t
    ensures forall rr :: rr in Renamed(rrs, q) ==> rr.rtype == t && rr.owner == q
  {
    forall rr | rr in Renamed(rrs, q)
      ensures rr.rtype == t && rr.owner == q
    {
      var i :| 0 <= i < |rrs| && Renamed(rrs, q)[i] == rr;
      assert rrs[i] in rrs;
    }
  }

  /** How the answer section and the result code have to look for each outcome of the walk. */
  ghost predicate Fits(m: Nodes, q: Name, qtype: RType, do: bool, o: Outcome, answer: seq<RR>, result: Result) {
    match o
    case Referral(_) => answer == [] && result == Delegation
    case EmptyNonTerminal => answer == [] && result == Success
    case NoName => answer == [] && result == NameError
    case Redirect(n) => n in m && RedirectedBy(m[n], q, qtype, do, answer, result)
    case Found(n) => n in m && NodeAnswers(OfType(m[n], TYPE_CNAME), OfType(m[n], qtype), SigsFor(m[n], qtype, do), qtype, answer, result)
    case Wild(w) =>
      w in m && NodeAnswers(Renamed(OfType(m[w], TYPE_CNAME), q), Renamed(OfType(m[w], qtype), q), Renamed(SigsFor(m[w], qtype, do), q), qtype, answer, result)
  }

  /** First the DNAME, then the alias made from it; asked for aliases the answer ends there. */
  ghost predicate RedirectedBy(e: Elem, q: Name, qtype: RType, do: bool, answer: seq<RR>, result: Result) {
    && var dnames := OfType(e, TYPE_DNAME);
    && dnames != [] && Synthesize(q, dnames[0]).Some?
    && var head := dnames + SigsFor(e, TYPE_DNAME, do) + [Synthesize(q, dnames[0]).value];
    && head <= answer && (qtype == TYPE_CNAME ==> answer == head && result == Success)
  }

  /** The aliases start the answer unless they were asked for; else the records and their signatures are the answer. */
  ghost predicate NodeAnswers(cname: seq<RR>, rrs: seq<RR>, sigs: seq<RR>, qtype: RType, answer: seq<RR>, result: Result) {
    if cname != [] && qtype != TYPE_CNAME then cname <= answer
    else if rrs == [] then answer == [] && result == NoData
    else answer == rrs + sigs && result == Success
  }

  /** Where the node has aliases, what these lead to follows them. */
  ghost predicate Pursues(s: Server, z: ZoneData, q: Name, qtype: RType, do: bool, loop: nat, o: Outcome, answer: seq<RR>, result: Result) {
    var m := Contents(z.tree);
    match o
    case Redirect(n) =>
      n in m && (qtype != TYPE_CNAME ==> Redirected(s, z.origin, q, qtype, do, loop, m[n], answer, result))
    case Found(n) =>
      n in m && (qtype != TYPE_CNAME && OfType(m[n], TYPE_CNAME) != [] ==>
        Chased(s, z.origin, qtype, do, loop + 1, m[n], OfType(m[n], TYPE_CNAME), answer, result))
    case Wild(w) =>
      w in m && (qtype != TYPE_CNAME && OfType(m[w], TYPE_CNAME) != [] ==>
        Chased(s, z.origin, qtype, do, loop + 1, m[w], Renamed(OfType(m[w], TYPE_CNAME), q), answer, result))
    case _ => true
  }

  ghost predicate Redirected(s: Server, origin: Name, q: Name, qtype: RType, do: bool, loop: nat, e: Elem, answer: seq<RR>, result: Result) {
    var dnames := OfType(e, TYPE_DNAME);
    dnames != [] && Synthesize(q, dnames[0]).Some? &&
    exists rest ::
      && answer == dnames + SigsFor(e, TYPE_DNAME, do) + rest
      && Chased(s, origin, qtype, do, loop + 1, e, [Synthesize(q, dnames[0]).value], rest, result)
  }

  /** What a lookup in the generation `z` gives: the apex is answered from beside the tree, all else as the walk decides. */
  ghost predicate LooksUp(z: ZoneData, q: Name, qtype: RType, do: bool, loop: nat, answer: seq<RR>, result: Result) {
    if z.apex.soa.None? then answer == [] && result == ServerFailure
    else if q == z.origin && qtype == TYPE_SOA then answer == [z.apex.soa.value] + (if do then z.apex.sigsoa else []) && result == Success
    else if q == z.origin && qtype == TYPE_NS then answer == z.apex.ns + (if do then z.apex.signs else []) && result == Success
    else if loop > 8 then answer == [] && result == ServerFailure
    else exists o :: Decides(Contents(z.tree), z.origin, q, qtype, o) && Fits(Contents(z.tree), q, qtype, do, o, answer, result)
  }

  /** The answer to an apex question from a zone loaded with `rs`: the last SOA, or the NS records of the apex, and their signatures. */
  ghost predicate ApexAnswer(o: Name, rs: seq<RR>, qtype: RType, do: bool, answer: seq<RR>) {
    && (qtype == TYPE_SOA ==>
          var soas := Only(rs, AnySoa);
          soas != [] && answer == [soas[|soas| - 1]] + (if do then Only(rs, SigOver(TYPE_SOA)) else []))
    && (qtype == TYPE_NS ==> answer == Only(rs, NsAt(o)) + (if do then Only(rs, NsSigAt(o)) else []))
  }

  lemma ApexFromRecords(rs: seq<RR>, z: ZoneData, qtype: RType, do: bool, loop: nat, answer: seq<RR>, result: Result)
    requires InsertAll(Fresh(z.origin), rs) == Some(z) && z.apex.soa.Some? && LooksUp(z, z.origin, qtype, do, loop, answer, result)
    requires qtype == TYPE_SOA || qtype == TYPE_NS
    ensures ApexAnswer(z.origin, rs, qtype, do, answer) && result == Success
  {
    LoadedZone(z.origin, rs);
  }

  /** lookup.go:46-55: SOA and NS of the apex are kept beside the tree. */
  method AnswerApex(z: ZoneData, qtype: RType, do: bool) returns (answer: seq<RR>)
    requires z.apex.soa.Some? && (qtype == TYPE_SOA || qtype == TYPE_NS)
    ensures forall loop :: LooksUp(z, z.origin, qtype, do, loop, answer, Success)
    ensures forall rs :: InsertAll(Fresh(z.origin), rs) == Some(z) ==> ApexAnswer(z.origin, rs, qtype, do, answer)
    ensures ZoneValid(z) ==> Follows(answer, z.origin, qtype) && LinkCount(answer) == 0
  {
    if qtype == TYPE_SOA {
      answer := [z.apex.soa.value];
      if do {
        answer := answer + z.apex.sigsoa;
      } else {
        assert answer == answer + [];
      }
    } else {
      answer := z.apex.ns;
      if do {
        answer := answer + z.apex.signs;
      } else {
        assert answer == answer + [];
      }
    }
    if ZoneValid(z) { Accompanies(answer, z.origin, qtype); }
    assert LooksUp(z, z.origin, qtype, do, 0, answer, Success);
    forall rs | InsertAll(Fresh(z.origin), rs) == Some(z) ensures ApexAnswer(z.origin, rs, qtype, do, answer) {
      ApexFromRecords(rs, z, qtype, do, 0, answer, Success);
    }
  }

  /** Answer and result fit the outcome of the walk, and what aliases lead to follows them. */
  ghost predicate FitsWalk(s: Server, z: ZoneData, q: Name, qtype: RType, do: bool, loop: nat, o: Outcome, answer: seq<RR>, result: Result) {
    && Decides(Contents(z.tree), z.origin, q, qtype, o) && Fits(Contents(z.tree), q, qtype, do, o, answer, result)
    && Pursues(s, z, q, qtype, do, loop, o, answer, result)
  }

  /** lookup.go:86-284. */
  method AnswerWalk(s: Server, ghost ext: nat, z: ZoneData, q: Name, qtype: RType, do: bool, loop: nat)
    returns (o: Outcome, answer: seq<RR>, result: Result)
    requires ServerOk(s) && z.origin in s.generations && ZoneOk(z) && IsSub(z.origin, q) && loop <= 8
    ensures ServerValid(s, ext) && ZoneValid(z) ==> AnswerValid(answer, q, qtype, LinkBudget(loop, ext))
    ensures FitsWalk(s, z, q, qtype, do, loop, o, answer, result)
    decreases 10 - loop, 2
  {
    o := Walk(z.origin, z.tree, q, qtype);
    match o
    case Redirect(n) => answer, result := AnswerRedirect(s, ext, z, q, qtype, do, loop, n);
    case Referral(_) => answer, result := [], Delegation;
    case Found(_) => answer, result := AnswerNode(s, ext, z, q, qtype, do, loop);
    case Wild(w) =>
      WildIsStored(Contents(z.tree), z.origin, q, qtype, w);
      answer, result := AnswerWildcard(s, ext, z, q, qtype, do, loop, w);
    case EmptyNonTerminal => answer, result := [], Success;
    case NoName => answer, result := [], NameError;
  }

  /** `Zone.Lookup` on the snapshot `z`: the answer section and the result code. */
  method LookupAnswer(s: Server, ghost ext: nat, z: ZoneData, q: Name, qtype: RType, do: bool, loop: nat)
    returns (answer: seq<RR>, result: Result)
    requires ServerOk(s) && z.origin in s.generations && ZoneOk(z) && IsSub(z.origin, q) && loop <= 9
    ensures ServerValid(s, ext) && ZoneValid(z) ==> AnswerValid(answer, q, qtype, LinkBudget(loop, ext))
    ensures LooksUp(z, q, qtype, do, loop, answer, result)
    ensures z.apex.soa.None? ==> answer == [] && result == ServerFailure
    ensures z.apex.soa.Some? && q == z.origin && (qtype == TYPE_SOA || qtype == TYPE_NS) ==>
      result == Success && forall rs :: InsertAll(Fresh(z.origin), rs) == Some(z) ==> ApexAnswer(z.origin, rs, qtype, do, answer)
    ensures z.apex.soa.Some? && !(q == z.origin && (qtype == TYPE_SOA || qtype == TYPE_NS)) && loop <= 8 ==>
      exists o :: FitsWalk(s, z, q, qtype, do, loop, o, answer, result)
    decreases 10 - loop, 3
  {
    if z.apex.soa.None? {
      return [], ServerFailure;
    }
    if q == z.origin && (qtype == TYPE_SOA || qtype == TYPE_NS) {
      answer := AnswerApex(z, qtype, do);
      return answer, Success;
    }
    if loop > 8 {
      return [], ServerFailure;
    }
    var o: Outcome;
    o, answer, result := AnswerWalk(s, ext, z, q, qtype, do, loop);
  }

  lemma WildIsStored(m: Nodes, origin: Name, q: Name, qtype: RType, w: Name)
    requires Decides(m, origin, q, qtype, Wild(w))
    ensures w in m
  {
    WildSeenIsDeepest(m, q, |origin|, |q|);
  }
}
