/** The check that no two server blocks want the same listener: `zoneOverlap` and the loop that drives it. */
module Overlap {
  import opened Bytes

  datatype ZoneAddr = ZoneAddr(zone: Str, port: Str, transport: Str, address: Str)

  function Unbound(z: ZoneAddr): ZoneAddr {
    z.(address := [])
  }

  /** Two different listeners for the same zone, port and transport, one of them not bound to an address. */
  predicate Overlaps(a: ZoneAddr, b: ZoneAddr) {
    a != b && Unbound(a) == Unbound(b) && (a.address == [] || b.address == [])
  }

  /** What `check` found. */
  datatype Finding = Free | Existing(exist: ZoneAddr) | Overlapping(other: ZoneAddr)

  class ZoneOverlap {
    var registeredAddr: map<ZoneAddr, ZoneAddr>
    var unboundOverlap: map<ZoneAddr, ZoneAddr>

    constructor ()
      ensures Valid() && registeredAddr == map[]
    {
      registeredAddr, unboundOverlap := map[], map[];
    }

    /** The second map has the unbound forms of the registered addresses, each with one that it stands for. */
    ghost predicate Valid()
      reads this
    {
      && (forall z :: z in registeredAddr ==> registeredAddr[z] == z && Unbound(z) in unboundOverlap)
      && (forall u :: u in unboundOverlap ==> unboundOverlap[u] in registeredAddr && Unbound(unboundOverlap[u]) == u)
    }

    function Check(z: ZoneAddr): (f: Finding)
      reads this
      requires Valid()
      ensures f.Existing? <==> z in registeredAddr
      ensures f.Existing? ==> f.exist == z
      ensures f.Overlapping? ==> f.other in registeredAddr && Overlaps(f.other, z)
      ensures f.Free? ==> forall y :: y in registeredAddr ==> y != z && !Overlaps(y, z)
    {
      var uz := Unbound(z);
      if z in registeredAddr then Existing(registeredAddr[z])
      else if uz in unboundOverlap && z.address == [] then Overlapping(unboundOverlap[uz])
      else if uz in unboundOverlap && uz in registeredAddr then Overlapping(uz)
      else Free
    }

    method RegisterAndCheck(z: ZoneAddr) returns (f: Finding)
      requires Valid()
      modifies this
      ensures Valid() && f == old(Check(z))
      ensures registeredAddr.Keys == if f.Free? then old(registeredAddr.Keys) + {z} else old(registeredAddr.Keys)
    {
      f := Check(z);
      if !f.Free? {
        return;
      }
      registeredAddr := registeredAddr[z := z];
      unboundOverlap := unboundOverlap[Unbound(z) := z];
    }
  }

  // ----- the configuration -----

  datatype Config = Config(transport: Str, zone: Str, port: Str, hosts: seq<Str>, filtered: bool)

  datatype Listener = Listener(addr: ZoneAddr, filtered: bool)

  function ListenerAt(c: Config, i: nat): Listener
    requires i < |c.hosts|
  {
    Listener(ZoneAddr(c.zone, c.port, c.transport, c.hosts[i]), c.filtered)
  }

  function ListenersOf(c: Config): (ls: seq<Listener>)
    ensures |ls| == |c.hosts| && forall i :: 0 <= i < |ls| ==> ls[i] == ListenerAt(c, i)
  {
    seq(|c.hosts|, i requires 0 <= i < |c.hosts| => ListenerAt(c, i))
  }

  /** All listeners in the order of the configuration. */
  function Listeners(cs: seq<Config>): seq<Listener> {
    if cs == [] then [] else Listeners(cs[..|cs| - 1]) + ListenersOf(cs[|cs| - 1])
  }

  /** The earlier listener `a` rules out the later one `b`. Filtered listeners are never registered. */
  predicate Clash(a: Listener, b: Listener) {
    !a.filtered && (Overlaps(a.addr, b.addr) || (!b.filtered && a.addr == b.addr))
  }

  ghost predicate Accepted(ls: seq<Listener>) {
    forall i, j :: 0 <= i < j < |ls| ==> !Clash(ls[i], ls[j])
  }

  /** The addresses registered after these listeners. */
  ghost predicate Registered(keys: set<ZoneAddr>, ls: seq<Listener>) {
    forall z :: z in keys <==> Listener(z, false) in ls
  }

  lemma NoOverlapWithin(ls: seq<Listener>, a: Listener, b: Listener)
    requires Accepted(ls) && a in ls && b in ls && !b.filtered
    ensures !a.filtered ==> !Overlaps(a.addr, b.addr)
  {
    var i :| 0 <= i < |ls| && ls[i] == a;
    var j :| 0 <= j < |ls| && ls[j] == b;
    assert i < j ==> !Clash(ls[i], ls[j]);
    assert j < i ==> !Clash(ls[j], ls[i]);
  }

  /** The body of the loop: one listener against the registered ones. */
  method ValidateOne(checker: ZoneOverlap, l: Listener, ghost ls: seq<Listener>) returns (ok: bool)
    requires checker.Valid() && Registered(checker.registeredAddr.Keys, ls) && Accepted(ls)
    modifies checker
    ensures checker.Valid()
    ensures ok <==> forall a :: a in ls ==> !Clash(a, l)
    ensures ok ==> Registered(checker.registeredAddr.Keys, ls + [l])
  {
    ghost var keys := checker.registeredAddr.Keys;
    Verdict(keys, ls, l);
    var f: Finding;
    if l.filtered {
      f := checker.Check(l.addr);
      if f.Existing? {
        RegisteredFree(keys, ls, l.addr);
        f := Free;
      }
    } else {
      f := checker.RegisterAndCheck(l.addr);
    }
    return f.Free?;
  }

  /** The registered addresses decide. */
  lemma Verdict(keys: set<ZoneAddr>, ls: seq<Listener>, l: Listener)
    requires Registered(keys, ls)
    ensures (forall a :: a in ls ==> !Clash(a, l)) <==> (l.filtered || l.addr !in keys) && forall y :: y in keys ==> !Overlaps(y, l.addr)
  {
    assert forall y :: y in keys ==> Listener(y, false) in ls;
    assert forall a :: a in ls && !a.filtered ==> a == Listener(a.addr, false) && a.addr in keys;
    if exists y :: y in keys && Overlaps(y, l.addr) {
      var y :| y in keys && Overlaps(y, l.addr);
      assert Clash(Listener(y, false), l);
    } else if !l.filtered && l.addr in keys {
      assert Clash(Listener(l.addr, false), l);
    }
  }

  lemma RegisteredFree(keys: set<ZoneAddr>, ls: seq<Listener>, z: ZoneAddr)
    requires Registered(keys, ls) && Accepted(ls) && z in keys
    ensures forall y :: y in keys ==> !Overlaps(y, z)
  {
    forall y | y in keys ensures !Overlaps(y, z) { NoOverlapWithin(ls, Listener(y, false), Listener(z, false)); }
  }

  /** The loop over one configuration's hosts. */
  method ValidateHosts(checker: ZoneOverlap, c: Config, ghost ls: seq<Listener>) returns (ok: bool)
    requires checker.Valid() && Registered(checker.registeredAddr.Keys, ls) && Accepted(ls)
    modifies checker
    ensures checker.Valid()
    ensures ok <==> Accepted(ls + ListenersOf(c))
    ensures ok ==> Registered(checker.registeredAddr.Keys, ls + ListenersOf(c))
  {
    ghost var more := ListenersOf(c);
    assert ls + more[..0] == ls;
    for i := 0 to |c.hosts|
      invariant checker.Valid() && Registered(checker.registeredAddr.Keys, ls + more[..i]) && Accepted(ls + more[..i])
    {
      ghost var before := ls + more[..i];
      assert before + [ListenerAt(c, i)] == ls + more[..i + 1];
      ok := ValidateOne(checker, ListenerAt(c, i), before);
      if !ok {
        assert (ls + more)[..|before| + 1] == ls + more[..i + 1];
        Refused(before, ListenerAt(c, i), ls + more);
        return;
      }
      AcceptedWith(before, ListenerAt(c, i));
    }
    assert more[..|more|] == more;
    return true;
  }

  lemma AcceptedWith(before: seq<Listener>, l: Listener)
    requires Accepted(before) && forall a :: a in before ==> !Clash(a, l)
    ensures Accepted(before + [l])
  {
  }

  lemma Refused(before: seq<Listener>, l: Listener, all: seq<Listener>)
    requires before + [l] <= all && exists a :: a in before && Clash(a, l)
    ensures !Accepted(all)
  {
    var a :| a in before && Clash(a, l);
    var i :| 0 <= i < |before| && before[i] == a;
    assert all[i] == (before + [l])[i] == a && all[|before|] == (before + [l])[|before|] == l;
  }

  /** `validateZonesAndListeningAddresses`: accepted exactly when no listener clashes with an earlier one. */
  method Validate(cs: seq<Config>) returns (ok: bool)
    ensures ok <==> Accepted(Listeners(cs))
  {
    var checker := new ZoneOverlap();
    for i := 0 to |cs|
      invariant fresh(checker) && checker.Valid()
      invariant Registered(checker.registeredAddr.Keys, Listeners(cs[..i])) && Accepted(Listeners(cs[..i]))
    {
      assert cs[..i + 1][..i] == cs[..i];
      ok := ValidateHosts(checker, cs[i], Listeners(cs[..i]));
      if !ok {
        StaysRefused(cs, i + 1);
        return;
      }
    }
    assert cs[..|cs|] == cs;
    return true;
  }

  lemma {:induction false} StaysRefused(cs: seq<Config>, n: nat)
    requires n <= |cs| && !Accepted(Listeners(cs[..n]))
    ensures !Accepted(Listeners(cs))
    decreases |cs|
  {
    if n == |cs| {
      assert cs[..n] == cs;
    } else {
      var m := |cs| - 1;
      assert cs[..m][..n] == cs[..n];
      StaysRefused(cs[..m], n);
      RefusedWithMore(Listeners(cs[..m]), ListenersOf(cs[m]));
    }
  }

  lemma RefusedWithMore(ls: seq<Listener>, more: seq<Listener>)
    requires !Accepted(ls)
    ensures !Accepted(ls + more)
  {
    var i, j :| 0 <= i < j < |ls| && Clash(ls[i], ls[j]);
    assert Clash((ls + more)[i], (ls + more)[j]);
  }

  // ----- order -----

  ghost predicate Unfiltered(ls: seq<Listener>) {
    forall l :: l in ls ==> !l.filtered
  }

  /** Without filters: pairwise distinct, and no unbound listener shares zone, port and transport with a bound one. */
  ghost predicate Compatible(ls: seq<Listener>) {
    && (forall i, j :: 0 <= i < j < |ls| ==> ls[i] != ls[j])
    && (forall a, b :: a in ls && b in ls && a.addr.address == [] && b.addr.address != [] ==> Unbound(a.addr) != Unbound(b.addr))
  }

  lemma UnfilteredAcceptedIff(ls: seq<Listener>)
    requires Unfiltered(ls)
    ensures Accepted(ls) <==> Compatible(ls)
  {
    if Accepted(ls) {
      forall i, j | 0 <= i < j < |ls| ensures ls[i] != ls[j] {
        assert !Clash(ls[i], ls[j]);
      }
      forall a, b | a in ls && b in ls && a.addr.address == [] && b.addr.address != [] ensures Unbound(a.addr) != Unbound(b.addr) {
        var i :| 0 <= i < |ls| && ls[i] == a;
        var j :| 0 <= j < |ls| && ls[j] == b;
        assert i < j ==> !Clash(ls[i], ls[j]);
        assert j < i ==> !Clash(ls[j], ls[i]);
      }
    }
  }

  /** A filtered and an unfiltered listener overlap. */
  ghost predicate Mixed(ls: seq<Listener>) {
    exists a, b :: a in ls && b in ls && a.filtered && !b.filtered && Overlaps(a.addr, b.addr)
  }

  lemma CountTwice(ls: seq<Listener>, i: nat, j: nat)
    requires i < j < |ls| && ls[i] == ls[j]
    ensures multiset(ls)[ls[i]] >= 2
  {
    assert ls == ls[..j] + [ls[j]] + ls[j + 1..];
    assert ls[..j][i] == ls[i];
  }

  lemma {:induction false} TwicePositions(ls: seq<Listener>, x: Listener) returns (i: nat, j: nat)
    requires multiset(ls)[x] >= 2
    ensures i < j < |ls| && ls[i] == x && ls[j] == x
  {
    var n := |ls| - 1;
    assert ls == ls[..n] + [ls[n]];
    if ls[n] == x && multiset(ls[..n])[x] == 1 {
      assert x in ls[..n];
      i :| 0 <= i < n && ls[i] == x;
      j := n;
    } else {
      i, j := TwicePositions(ls[..n], x);
    }
  }

  lemma SameMembers(ls: seq<Listener>, ms: seq<Listener>, x: Listener)
    requires multiset(ls) == multiset(ms) && x in ls
    ensures x in ms
  {
    assert x in multiset(ls);
  }

  /** An accepted configuration is accepted in another order, unless filtered and unfiltered listeners overlap. */
  lemma ReorderedAccepted(ls: seq<Listener>, ms: seq<Listener>)
    requires multiset(ls) == multiset(ms) && Accepted(ls) && !Mixed(ls)
    ensures Accepted(ms)
  {
    forall i, j | 0 <= i < j < |ms| ensures !Clash(ms[i], ms[j]) {
      var a, b := ms[i], ms[j];
      SameMembers(ms, ls, a);
      SameMembers(ms, ls, b);
      if a == b {
        CountTwice(ms, i, j);
        var p, q := TwicePositions(ls, a);
        assert !Clash(ls[p], ls[q]);
      } else {
        var p :| 0 <= p < |ls| && ls[p] == a;
        var q :| 0 <= q < |ls| && ls[q] == b;
        if p < q { assert !Clash(ls[p], ls[q]); } else { assert !Clash(ls[q], ls[p]); }
      }
    }
  }

  lemma SwappedRefused(ls: seq<Listener>, i: nat, j: nat)
    requires i < j < |ls| && Clash(ls[j], ls[i])
    ensures exists ms :: multiset(ms) == multiset(ls) && !Accepted(ms)
  {
    var ms := ls[i := ls[j]][j := ls[i]];
    assert multiset(ms) == multiset(ls);
    assert Clash(ms[i], ms[j]);
    assert !Accepted(ms);
  }

  /** Of an accepted configuration every order is accepted if and only if no filtered listener overlaps an unfiltered one. */
  lemma OrderIrrelevantIff(ls: seq<Listener>)
    requires Accepted(ls)
    ensures (forall ms :: multiset(ms) == multiset(ls) ==> Accepted(ms)) <==> !Mixed(ls)
  {
    if !Mixed(ls) {
      forall ms | multiset(ms) == multiset(ls) ensures Accepted(ms) { ReorderedAccepted(ls, ms); }
    } else {
      var a, b :| a in ls && b in ls && a.filtered && !b.filtered && Overlaps(a.addr, b.addr);
      var i :| 0 <= i < |ls| && ls[i] == a;
      var j :| 0 <= j < |ls| && ls[j] == b;
      assert Clash(ls[j], ls[i]);
      SwappedRefused(ls, i, j);
    }
  }

  /** A filtered block without bind address before an unfiltered one that is bound is accepted; the other way round it is not. */
  lemma OrderMatters(transport: Str, zone: Str, port: Str, host: Str)
    requires host != []
    ensures var a, b := Config(transport, zone, port, [[]], true), Config(transport, zone, port, [host], false);
      Accepted(Listeners([a, b])) && !Accepted(Listeners([b, a]))
  {
    var a, b := Config(transport, zone, port, [[]], true), Config(transport, zone, port, [host], false);
    TwoListeners(a, b);
    TwoListeners(b, a);
    assert Clash(Listeners([b, a])[0], Listeners([b, a])[1]);
  }

  lemma TwoListeners(a: Config, b: Config)
    requires |a.hosts| == |b.hosts| == 1
    ensures Listeners([a, b]) == [ListenerAt(a, 0), ListenerAt(b, 0)]
  {
    OneHost(a);
    OneHost(b);
    OneMoreConfig([], a);
    OneMoreConfig([a], b);
    assert [] + [a] == [a] && [a] + [b] == [a, b];
  }

  lemma OneMoreConfig(cs: seq<Config>, c: Config)
    ensures Listeners(cs + [c]) == Listeners(cs) + ListenersOf(c)
  {
    assert (cs + [c])[..|cs|] == cs;
  }

  lemma OneHost(c: Config)
    requires |c.hosts| == 1
    ensures ListenersOf(c) == [ListenerAt(c, 0)]
  {
  }

  /** So acceptance of unfiltered configurations does not depend on their order. */
  lemma UnfilteredOrderIrrelevant(ls: seq<Listener>, ms: seq<Listener>)
    requires multiset(ls) == multiset(ms) && Unfiltered(ls)
    ensures Accepted(ls) <==> Accepted(ms)
  {
    forall x | x in ms ensures x in ls { SameMembers(ms, ls, x); }
    if Accepted(ls) { ReorderedAccepted(ls, ms); }
    if Accepted(ms) { ReorderedAccepted(ms, ls); }
  }
}
