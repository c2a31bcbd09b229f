/** Answer reordering: the weighted choice of the first address and the random shuffle. */
module LoadBalance {
  import opened Bytes
  import opened Names
  import opened Records
  import opened Options

  // ----- weights -----

  /** Addresses are in their 16-byte form. */
  datatype WeightItem = WeightItem(address: Str, value: nat)

  type Domains = map<Name, seq<WeightItem>>

  /** A line of the weight file, as far as it can be parsed. */
  datatype Line = Blank | Domain(name: Name, isAddress: bool) | Entry(ip: Option<Str>, weight: Option<nat>) | Garbled

  /** The domain that an entry after these lines belongs to. */
  function Heading(lines: seq<Line>): Option<Name> {
    if lines == [] then None
    else if lines[|lines| - 1].Domain? then Some(lines[|lines| - 1].name)
    else Heading(lines[..|lines| - 1])
  }

  /** The line cannot stand where it does: `ParseUint` takes eight bits, and a weight of 0 is refused. */
  predicate Bad(lines: seq<Line>, i: nat)
    requires i < |lines|
  {
    match lines[i]
    case Blank => false
    case Domain(_, isAddress) => isAddress
    case Entry(ip, weight) => ip.None? || weight.None? || weight.value == 0 || weight.value > 255 || Heading(lines[..i]).None?
    case Garbled => true
  }

  /** The weights that the lines give for domain `d`, in order. */
  function Items(lines: seq<Line>, d: Name): seq<WeightItem> {
    if lines == [] then []
    else
      var front, line := lines[..|lines| - 1], lines[|lines| - 1];
      if line.Entry? && line.ip.Some? && line.weight.Some? && Heading(front) == Some(d)
      then Items(front, d) + [WeightItem(line.ip.value, line.weight.value)]
      else Items(front, d)
  }

  ghost predicate InRange(domains: Domains) {
    forall d, i :: d in domains && 0 <= i < |domains[d]| ==> 1 <= domains[d][i].value <= 255
  }

  ghost predicate Parsed(lines: seq<Line>, domains: Domains) {
    && InRange(domains)
    && (forall d :: d in domains ==> domains[d] == Items(lines, d))
    && (forall d :: d !in domains ==> Items(lines, d) == [])
  }

  /** `parseWeights`: fails exactly when some line is bad, and otherwise gives each domain its weights, all in 1..255. */
  method ParseWeights(lines: seq<Line>) returns (r: Option<Domains>)
    ensures r.None? <==> exists i :: 0 <= i < |lines| && Bad(lines, i)
    ensures r.Some? ==> Parsed(lines, r.value)
  {
    var dname: Option<Name> := None;
    var ws: seq<WeightItem> := [];
    var domains: Domains := map[];
    for i := 0 to |lines|
      invariant forall j :: 0 <= j < i ==> !Bad(lines, j)
      invariant dname == Heading(lines[..i])
      invariant dname.Some? ==> dname.value in domains && ws == domains[dname.value]
      invariant Parsed(lines[..i], domains)
    {
      assert lines[..i + 1][..i] == lines[..i];
      match lines[i]
      case Blank =>
      case Domain(name, isAddress) =>
        if isAddress {
          assert Bad(lines, i);
          return None;
        }
        dname := Some(name);
        if name !in domains {
          domains := domains[name := []];
        }
        ws := domains[name];
      case Entry(ip, weight) =>
        if ip.None? || weight.None? || weight.value == 0 || weight.value > 255 || dname.None? {
          assert Bad(lines, i);
          return None;
        }
        ws := ws + [WeightItem(ip.value, weight.value)];
        domains := domains[dname.value := ws];
      case Garbled =>
        assert Bad(lines, i);
        return None;
    }
    assert lines[..|lines|] == lines;
    return Some(domains);
  }

  // ----- choosing the top address -----

  function AddressOf(rr: RR): Str {
    match rr.data case Opaque(b) => b case _ => []
  }

  /** The first weight given for the address, or 1. */
  ghost predicate IsWeight(ws: seq<WeightItem>, ip: Str, w: nat) {
    || (w == 1 && forall i :: 0 <= i < |ws| ==> ws[i].address != ip)
    || exists i :: 0 <= i < |ws| && ws[i].address == ip && ws[i].value == w && forall j :: 0 <= j < i ==> ws[j].address != ip
  }

  function WeightIn(ws: seq<WeightItem>, ip: Str): (w: nat)
    ensures IsWeight(ws, ip, w)
  {
    if ws == [] then 1 else if ws[0].address == ip then ws[0].value
    else
      assert forall i :: 0 < i < |ws| ==> ws[i] == ws[1..][i - 1];
      WeightIn(ws[1..], ip)
  }

  function WeightOf(domains: Domains, rr: RR): (w: nat) {
    WeightIn(if rr.owner in domains then domains[rr.owner] else [], AddressOf(rr))
  }

  datatype Weighted = Weighted(index: nat, weight: nat)

  function Weigh(domains: Domains, address: seq<RR>): (wa: seq<Weighted>)
    ensures |wa| == |address| && forall i :: 0 <= i < |wa| ==> wa[i] == Weighted(i, WeightOf(domains, address[i]))
  {
    seq(|address|, i requires 0 <= i < |address| => Weighted(i, WeightOf(domains, address[i])))
  }

  function Sum(wa: seq<Weighted>): nat {
    if wa == [] then 0 else Sum(wa[..|wa| - 1]) + wa[|wa| - 1].weight
  }

  lemma {:induction false} SumPrefix(wa: seq<Weighted>, k: nat)
    requires k <= |wa|
    ensures Sum(wa[..k]) <= Sum(wa)
    ensures k < |wa| ==> Sum(wa[..k]) + wa[k].weight <= Sum(wa)
  {
    if k < |wa| {
      if k < |wa| - 1 {
        SumPrefix(wa[..|wa| - 1], k);
        assert wa[..|wa| - 1][..k] == wa[..k];
      }
    } else {
      assert wa[..k] == wa;
    }
  }

  function Without(wa: seq<Weighted>, p: nat): seq<Weighted>
    requires p < |wa|
  {
    wa[..p] + wa[p + 1..]
  }

  lemma {:induction false} SumWithout(wa: seq<Weighted>, p: nat)
    requires p < |wa|
    ensures Sum(wa) == Sum(Without(wa, p)) + wa[p].weight
  {
    var n := |wa| - 1;
    if p == n {
      assert Without(wa, p) == wa[..n];
    } else {
      SumWithout(wa[..n], p);
      assert Without(wa, p)[..n - 1] == Without(wa[..n], p);
    }
  }

  lemma MultisetWithout(wa: seq<Weighted>, p: nat)
    requires p < |wa|
    ensures multiset(Without(wa, p)) == multiset(wa) - multiset{wa[p]}
  {
    assert wa == wa[..p] + [wa[p]] + wa[p + 1..];
  }

  /** Sorting does not change the sum. */
  lemma {:induction false} SumPermutation(a: seq<Weighted>, b: seq<Weighted>)
    requires multiset(a) == multiset(b)
    ensures Sum(a) == Sum(b)
  {
    assert |a| == |multiset(a)| == |b|;
    if a != [] {
      var n := |a| - 1;
      assert a[n] in multiset(b);
      var p :| 0 <= p < |b| && b[p] == a[n];
      SumWithout(b, p);
      MultisetWithout(b, p);
      MultisetWithout(a, n);
      assert Without(a, n) == a[..n];
      SumPermutation(a[..n], Without(b, p));
    }
  }

  method FindWeight(ws: seq<WeightItem>, ip: Str) returns (w: nat)
    ensures w == WeightIn(ws, ip)
  {
    for i := 0 to |ws|
      invariant WeightIn(ws, ip) == WeightIn(ws[i..], ip)
    {
      if ws[i].address == ip {
        return ws[i].value;
      }
      assert ws[i..][1..] == ws[i + 1..];
    }
    return 1;
  }

  /** The first loop of `topAddressIndex`: weights and their sum. */
  method WeighAddresses(domains: Domains, address: seq<RR>) returns (wa: seq<Weighted>, wsum: nat)
    ensures wa == Weigh(domains, address) && wsum == Sum(wa)
  {
    wa, wsum := [], 0;
    for i := 0 to |address|
      invariant wa == Weigh(domains, address)[..i] && wsum == Sum(wa)
    {
      var rr := address[i];
      var weight := FindWeight(if rr.owner in domains then domains[rr.owner] else [], AddressOf(rr));
      assert weight == WeightOf(domains, rr);
      WeighStep(domains, address, i);
      wa := wa + [Weighted(i, weight)];
      wsum := wsum + weight;
    }
  }

  lemma WeighStep(domains: Domains, address: seq<RR>, i: nat)
    requires i < |address|
    ensures Weigh(domains, address)[..i + 1] == Weigh(domains, address)[..i] + [Weighted(i, WeightOf(domains, address[i]))]
    ensures Sum(Weigh(domains, address)[..i + 1]) == Sum(Weigh(domains, address)[..i]) + WeightOf(domains, address[i])
  {
    var wa := Weigh(domains, address);
    assert wa[..i + 1][..i] == wa[..i];
  }

  /** Draw `v` falls into the share of position `p`. */
  predicate Share(wa: seq<Weighted>, p: nat, v: nat)
    requires p < |wa|
  {
    Sum(wa[..p]) <= v < Sum(wa[..p]) + wa[p].weight
  }

  lemma ShareUnique(wa: seq<Weighted>, p: nat, q: nat, v: nat)
    requires p < |wa| && q < |wa| && Share(wa, p, v) && Share(wa, q, v)
    ensures p == q
  {
    if p < q { ShareBefore(wa, p, q); }
    if q < p { ShareBefore(wa, q, p); }
  }

  lemma ShareBefore(wa: seq<Weighted>, p: nat, q: nat)
    requires p < q < |wa|
    ensures Sum(wa[..p]) + wa[p].weight <= Sum(wa[..q])
  {
    SumPrefix(wa[..q], p);
    assert wa[..q][..p] == wa[..p];
  }

  /**
   * The loops of `topAddressIndex`. `sorted` is the list of weighted addresses in the order that the sort by weight
   * leaves them in, equal weights in any order, and `v` the random number.
   */
  method TopAddressIndex(domains: Domains, address: seq<RR>, sorted: seq<Weighted>, v: nat) returns (top: int)
    requires multiset(sorted) == multiset(Weigh(domains, address))
    requires v < Sum(Weigh(domains, address))
    ensures 0 <= top < |address| && forall i: nat :: Selects(sorted, i, v) <==> i == top
  {
    SumPermutation(sorted, Weigh(domains, address));
    assert sorted[..|sorted|] == sorted;
    var psum := 0;
    for p := 0 to |sorted|
      invariant psum == Sum(sorted[..p]) <= v
    {
      assert sorted[..p + 1][..p] == sorted[..p];
      psum := psum + sorted[p].weight;
      if v < psum {
        assert Share(sorted, p, v);
        assert sorted[p] in multiset(sorted);
        assert sorted[p] in Weigh(domains, address);
        OneSelected(sorted, p, v);
        return sorted[p].index;
      }
    }
    assert false;
    return -1;
  }

  /** A draw selects one address only. */
  lemma OneSelected(sorted: seq<Weighted>, p: nat, v: nat)
    requires p < |sorted| && Share(sorted, p, v)
    ensures forall i: nat :: Selects(sorted, i, v) <==> i == sorted[p].index
  {
    forall q: nat | q < |sorted| && Share(sorted, q, v) ensures q == p { ShareUnique(sorted, p, q, v); }
  }

  // ----- fairness -----

  lemma {:induction false} OccursTwice(xs: seq<Weighted>, p: nat, q: nat)
    requires p < q < |xs| && xs[p] == xs[q]
    ensures multiset(xs)[xs[p]] >= 2
  {
    assert xs == xs[..q] + [xs[q]] + xs[q + 1..];
    assert xs[..q][p] == xs[p];
    assert xs[p] in multiset(xs[..q]);
  }

  lemma {:induction false} OccursOnce(domains: Domains, address: seq<RR>, n: nat, x: Weighted)
    requires n <= |address|
    ensures multiset(Weigh(domains, address)[..n])[x] <= 1
    ensures n <= x.index ==> multiset(Weigh(domains, address)[..n])[x] == 0
  {
    var wa := Weigh(domains, address);
    if n > 0 {
      OccursOnce(domains, address, n - 1, x);
      assert wa[..n] == wa[..n - 1] + [wa[n - 1]];
    }
  }

  /** In any arrangement of the weighted addresses each of them has exactly one position. */
  lemma OnePosition(domains: Domains, address: seq<RR>, sorted: seq<Weighted>, i: nat) returns (p: nat)
    requires multiset(sorted) == multiset(Weigh(domains, address)) && i < |address|
    ensures p < |sorted| && sorted[p] == Weighted(i, WeightOf(domains, address[i]))
    ensures forall q :: 0 <= q < |sorted| && sorted[q].index == i ==> q == p
  {
    var wa := Weigh(domains, address);
    assert wa[i] in multiset(sorted);
    p :| 0 <= p < |sorted| && sorted[p] == wa[i];
    forall q | 0 <= q < |sorted| && sorted[q].index == i ensures q == p {
      assert sorted[q] in multiset(wa);
      assert sorted[q] in wa;
      OccursOnce(domains, address, |wa|, wa[i]);
      assert wa[..|wa|] == wa;
      if q < p { OccursTwice(sorted, q, p); }
      if p < q { OccursTwice(sorted, p, q); }
    }
  }

  ghost predicate Selects(sorted: seq<Weighted>, i: nat, v: nat) {
    exists p :: 0 <= p < |sorted| && Share(sorted, p, v) && sorted[p].index == i
  }

  /** The numbers below `limit` that select address `i`. */
  ghost function Draws(limit: nat, sorted: seq<Weighted>, i: nat): set<nat> {
    set v: nat | v < limit && Selects(sorted, i, v)
  }

  function Range(lo: nat, n: nat): (s: set<nat>)
    ensures forall v :: v in s <==> lo <= v < lo + n
    ensures |s| == n
  {
    if n == 0 then {} else Range(lo, n - 1) + {lo + n - 1}
  }

  /** Of all the numbers that can be drawn, exactly as many select an address as its weight says. */
  lemma DrawsAreFair(domains: Domains, address: seq<RR>, sorted: seq<Weighted>, i: nat)
    requires multiset(sorted) == multiset(Weigh(domains, address)) && i < |address|
    ensures |Draws(Sum(Weigh(domains, address)), sorted, i)| == WeightOf(domains, address[i])
  {
    var p := OnePosition(domains, address, sorted, i);
    var share := Range(Sum(sorted[..p]), sorted[p].weight);
    SumPrefix(sorted, p);
    SumPermutation(sorted, Weigh(domains, address));
    var draws := Draws(Sum(sorted), sorted, i);
    forall v: nat ensures v in draws <==> v in share {
      if v in share { assert Share(sorted, p, v); }
    }
    assert draws == share;
  }

  /** With parsed weights there is always something to draw from. */
  lemma {:induction false} SomethingToDraw(domains: Domains, address: seq<RR>, n: nat)
    requires InRange(domains) && n <= |address|
    ensures Sum(Weigh(domains, address)[..n]) >= n
  {
    if n > 0 {
      SomethingToDraw(domains, address, n - 1);
      var wa := Weigh(domains, address);
      assert wa[..n][..n - 1] == wa[..n - 1];
      assert wa[..n][n - 1] == wa[n - 1];
      var rr := address[n - 1];
      assert IsWeight(if rr.owner in domains then domains[rr.owner] else [], AddressOf(rr), wa[n - 1].weight);
    }
  }

  // ----- rearranging the answer -----

  function Swapped(s: seq<RR>, i: nat, j: nat): (r: seq<RR>)
    requires i < |s| && j < |s|
  {
    s[i := s[j]][j := s[i]]
  }

  lemma SwappedPermutes(s: seq<RR>, i: nat, j: nat)
    requires i < |s| && j < |s|
    ensures multiset(Swapped(s, i, j)) == multiset(s)
  {
  }

  /** `setTopRecord`: the chosen address trades places with the first one. */
  method SetTopRecord(domains: Domains, address: array<RR>, sorted: seq<Weighted>, v: nat)
    requires multiset(sorted) == multiset(Weigh(domains, address[..]))
    requires v < Sum(Weigh(domains, address[..]))
    modifies address
    ensures exists top :: 0 <= top < address.Length && Selects(sorted, top, v) && address[..] == Swapped(old(address[..]), 0, top)
  {
    var top := TopAddressIndex(domains, address[..], sorted, v);
    if top < 0 {
      return;
    }
    if top != 0 {
      address[0], address[top] := address[top], address[0];
    }
    assert address[..] == Swapped(old(address[..]), 0, top);
  }

  datatype Kind = Alias | Address | Mail | Rest

  function KindOf(rr: RR): Kind {
    if rr.rtype == TYPE_CNAME then Alias
    else if rr.rtype == TYPE_A || rr.rtype == TYPE_AAAA then Address
    else if rr.rtype == TYPE_MX then Mail
    else Rest
  }

  /** The records of one kind, in order. */
  function OfKind(rrs: seq<RR>, k: Kind): seq<RR> {
    if rrs == [] then []
    else if KindOf(rrs[|rrs| - 1]) == k then OfKind(rrs[..|rrs| - 1], k) + [rrs[|rrs| - 1]]
    else OfKind(rrs[..|rrs| - 1], k)
  }

  lemma CountSnoc(s: seq<RR>, y: RR, x: RR)
    ensures multiset(s + [y])[x] == multiset(s)[x] + if x == y then 1 else 0
  {
  }

  function Count(rrs: seq<RR>, k: Kind, x: RR): nat {
    multiset(OfKind(rrs, k))[x]
  }

  lemma {:induction false} KindsCount(rrs: seq<RR>, x: RR)
    ensures Count(rrs, Alias, x) + Count(rrs, Rest, x) + Count(rrs, Address, x) + Count(rrs, Mail, x) == multiset(rrs)[x]
  {
    if rrs != [] {
      var front, y := rrs[..|rrs| - 1], rrs[|rrs| - 1];
      KindsCount(front, x);
      assert rrs == front + [y];
      CountSnoc(front, y, x);
      CountSnoc(OfKind(front, KindOf(y)), y, x);
    }
  }

  /** The four groups make up the whole, whatever the order in two of them. */
  lemma KindsPartition(rrs: seq<RR>, address: seq<RR>, mx: seq<RR>)
    requires multiset(address) == multiset(OfKind(rrs, Address)) && multiset(mx) == multiset(OfKind(rrs, Mail))
    ensures multiset(OfKind(rrs, Alias) + OfKind(rrs, Rest) + address + mx) == multiset(rrs)
  {
    var out := OfKind(rrs, Alias) + OfKind(rrs, Rest) + address + mx;
    forall x ensures multiset(out)[x] == multiset(rrs)[x] { KindsCount(rrs, x); }
  }

  /** The records whose type is among `types`, in order, and the others. */
  function Among(rrs: seq<RR>, types: set<RType>, yes: bool): seq<RR> {
    if rrs == [] then [] else (if (rrs[0].rtype in types) == yes then [rrs[0]] else []) + Among(rrs[1..], types, yes)
  }

  lemma {:induction false} AmongSnoc(rrs: seq<RR>, rr: RR, types: set<RType>, yes: bool)
    ensures Among(rrs + [rr], types, yes) == Among(rrs, types, yes) + (if (rr.rtype in types) == yes then [rr] else [])
  {
    if rrs == [] {
      assert [] + [rr] == [rr] && [rr][1..] == [];
    } else {
      assert (rrs + [rr])[1..] == rrs[1..] + [rr];
      AmongSnoc(rrs[1..], rr, types, yes);
    }
  }

  /** Which types make up the four groups. */
  lemma {:induction false} KindsAreTypes(rrs: seq<RR>)
    ensures OfKind(rrs, Alias) == Among(rrs, {TYPE_CNAME}, true) && OfKind(rrs, Mail) == Among(rrs, {TYPE_MX}, true)
    ensures OfKind(rrs, Address) == Among(rrs, {TYPE_A, TYPE_AAAA}, true)
    ensures OfKind(rrs, Rest) == Among(rrs, {TYPE_CNAME, TYPE_A, TYPE_AAAA, TYPE_MX}, false)
  {
    if rrs != [] {
      var front, rr := rrs[..|rrs| - 1], rrs[|rrs| - 1];
      KindsAreTypes(front);
      assert rrs == front + [rr];
      AmongSnoc(front, rr, {TYPE_CNAME}, true);
      AmongSnoc(front, rr, {TYPE_MX}, true);
      AmongSnoc(front, rr, {TYPE_A, TYPE_AAAA}, true);
      AmongSnoc(front, rr, {TYPE_CNAME, TYPE_A, TYPE_AAAA, TYPE_MX}, false);
    }
  }

  method Partition(rrs: seq<RR>) returns (cname: seq<RR>, address: seq<RR>, mx: seq<RR>, rest: seq<RR>)
    ensures cname == OfKind(rrs, Alias) && address == OfKind(rrs, Address) && mx == OfKind(rrs, Mail) && rest == OfKind(rrs, Rest)
    ensures cname == Among(rrs, {TYPE_CNAME}, true) && address == Among(rrs, {TYPE_A, TYPE_AAAA}, true) && mx == Among(rrs, {TYPE_MX}, true)
    ensures rest == Among(rrs, {TYPE_CNAME, TYPE_A, TYPE_AAAA, TYPE_MX}, false)
  {
    cname, address, mx, rest := [], [], [], [];
    for i := 0 to |rrs|
      invariant cname == OfKind(rrs[..i], Alias) && address == OfKind(rrs[..i], Address)
      invariant mx == OfKind(rrs[..i], Mail) && rest == OfKind(rrs[..i], Rest)
    {
      assert rrs[..i + 1][..i] == rrs[..i];
      match KindOf(rrs[i])
      case Alias => cname := cname + [rrs[i]];
      case Address => address := address + [rrs[i]];
      case Mail => mx := mx + [rrs[i]];
      case Rest => rest := rest + [rrs[i]];
    }
    assert rrs[..|rrs|] == rrs;
    KindsAreTypes(rrs);
  }

  method ArrayOf(s: seq<RR>) returns (a: array<RR>)
    ensures fresh(a) && a[..] == s
  {
    a := new RR[|s|](i requires 0 <= i < |s| => s[i]);
  }

  /** Aliases, the rest, the addresses with the selected one in front, mail exchangers: each group otherwise in order. */
  ghost predicate TopFirst(rrs: seq<RR>, sorted: seq<Weighted>, v: nat, out: seq<RR>, top: nat) {
    && top < |OfKind(rrs, Address)| && Selects(sorted, top, v)
    && out == OfKind(rrs, Alias) + OfKind(rrs, Rest) + Swapped(OfKind(rrs, Address), 0, top) + OfKind(rrs, Mail)
  }

  /** `weightedRoundRobin`: a permutation that keeps every group in order, except for the one chosen address. */
  method WeightedRoundRobin(domains: Domains, rrs: seq<RR>, sorted: seq<Weighted>, v: nat) returns (out: seq<RR>)
    requires OfKind(rrs, Address) != [] ==> multiset(sorted) == multiset(Weigh(domains, OfKind(rrs, Address)))
    requires OfKind(rrs, Address) != [] ==> v < Sum(Weigh(domains, OfKind(rrs, Address)))
    ensures multiset(out) == multiset(rrs)
    ensures OfKind(rrs, Address) == [] ==> out == rrs
    ensures OfKind(rrs, Address) != [] ==> exists top :: TopFirst(rrs, sorted, v, out, top)
  {
    var cname, address, mx, rest := Partition(rrs);
    if |address| == 0 {
      return rrs;
    }
    var a := ArrayOf(address);
    SetTopRecord(domains, a, sorted, v);
    ghost var top :| 0 <= top < |address| && Selects(sorted, top, v) && a[..] == Swapped(address, 0, top);
    SwappedPermutes(address, 0, top);
    KindsPartition(rrs, a[..], mx);
    out := cname + rest;
    out := out + a[..];
    out := out + mx;
    assert TopFirst(rrs, sorted, v, out, top);
  }

  // ----- the random shuffle -----

  /** Position `j` of `ids` decides what goes to position `j`: something from there to the end. */
  function Dealt(s: seq<RR>, ids: seq<nat>, j: nat): (r: seq<RR>)
    requires j <= |s| <= |ids|
    decreases |s| - j
    ensures |r| == |s|
  {
    if j == |s| then s else Dealt(Swapped(s, j, j + ids[j] % (|s| - j)), ids, j + 1)
  }

  function Shuffled(s: seq<RR>, ids: seq<nat>): (r: seq<RR>)
    requires |s| <= |ids|
  {
    if |s| <= 1 then s
    else if |s| == 2 then (if ids[0] % 2 == 0 then Swapped(s, 0, 1) else s)
    else Dealt(s, ids, 0)
  }

  method RoundRobinShuffle(records: array<RR>, ids: seq<nat>)
    requires records.Length <= |ids|
    modifies records
    ensures records[..] == Shuffled(old(records[..]), ids)
  {
    var l := records.Length;
    if l <= 1 {
      return;
    }
    if l == 2 {
      if ids[0] % 2 == 0 {
        records[0], records[1] := records[1], records[0];
      }
      return;
    }
    for j := 0 to l
      invariant Dealt(records[..], ids, j) == Dealt(old(records[..]), ids, 0)
    {
      var p := j + ids[j] % (l - j);
      ghost var before := records[..];
      if j != p {
        records[j], records[p] := records[p], records[j];
      }
      assert records[..] == Swapped(before, j, p);
    }
  }

  lemma {:induction false} DealtPermutes(s: seq<RR>, ids: seq<nat>, j: nat)
    requires j <= |s| <= |ids|
    ensures multiset(Dealt(s, ids, j)) == multiset(s)
    decreases |s| - j
  {
    if j < |s| {
      var p := j + ids[j] % (|s| - j);
      SwappedPermutes(s, j, p);
      DealtPermutes(Swapped(s, j, p), ids, j + 1);
    }
  }

  /** A shuffle loses and invents nothing. */
  lemma ShuffledPermutes(s: seq<RR>, ids: seq<nat>)
    requires |s| <= |ids|
    ensures multiset(Shuffled(s, ids)) == multiset(s)
  {
    if |s| == 2 { SwappedPermutes(s, 0, 1); }
    else if |s| > 2 { DealtPermutes(s, ids, 0); }
  }

  /** `roundRobin`: a permutation that keeps aliases and the rest in order and shuffles the addresses and the mail exchangers. */
  method RoundRobin(rrs: seq<RR>, addressIds: seq<nat>, mxIds: seq<nat>) returns (out: seq<RR>)
    requires |OfKind(rrs, Address)| <= |addressIds| && |OfKind(rrs, Mail)| <= |mxIds|
    ensures multiset(out) == multiset(rrs)
    ensures out == OfKind(rrs, Alias) + OfKind(rrs, Rest)
                   + Shuffled(OfKind(rrs, Address), addressIds) + Shuffled(OfKind(rrs, Mail), mxIds)
  {
    var cname, address, mx, rest := Partition(rrs);
    var a := ArrayOf(address);
    RoundRobinShuffle(a, addressIds);
    var m := ArrayOf(mx);
    RoundRobinShuffle(m, mxIds);
    ShuffledPermutes(address, addressIds);
    ShuffledPermutes(mx, mxIds);
    KindsPartition(rrs, a[..], m[..]);
    out := cname + rest;
    out := out + a[..];
    out := out + m[..];
  }

  lemma SwapPrefix(s: seq<RR>, t: seq<RR>, j: nat, p: nat)
    requires j <= p < |s| == |t| && s[..j] == t[..j] && s[p] == t[j]
    ensures Swapped(s, j, p)[..j + 1] == t[..j + 1]
  {
    assert forall i :: 0 <= i < j ==> s[i] == s[..j][i] == t[..j][i];
  }

  lemma CancelHead(x: RR, a: seq<RR>, b: seq<RR>)
    requires multiset([x] + a) == multiset([x] + b)
    ensures multiset(a) == multiset(b)
  {
    assert multiset([x] + a) - multiset{x} == multiset(a);
    assert multiset([x] + b) - multiset{x} == multiset(b);
  }

  lemma SwapTail(s: seq<RR>, t: seq<RR>, p: nat)
    requires p < |s| == |t| && multiset(s) == multiset(t) && s[p] == t[0]
    ensures multiset(Swapped(s, 0, p)[1..]) == multiset(t[1..])
  {
    SwappedPermutes(s, 0, p);
    assert Swapped(s, 0, p) == [t[0]] + Swapped(s, 0, p)[1..];
    assert t == [t[0]] + t[1..];
    CancelHead(t[0], Swapped(s, 0, p)[1..], t[1..]);
  }

  lemma SwapPreserves(s: seq<RR>, t: seq<RR>, j: nat, p: nat)
    requires j <= p < |s| == |t| && s[..j] == t[..j] && multiset(s[j..]) == multiset(t[j..]) && s[p] == t[j]
    ensures Swapped(s, j, p)[..j + 1] == t[..j + 1]
    ensures multiset(Swapped(s, j, p)[j + 1..]) == multiset(t[j + 1..])
  {
    SwapPrefix(s, t, j, p);
    SwapTail(s[j..], t[j..], p - j);
    assert Swapped(s, j, p)[j + 1..] == Swapped(s[j..], 0, p - j)[1..];
    assert t[j + 1..] == t[j..][1..];
  }

  lemma FindFrom(s: seq<RR>, j: nat, x: RR) returns (p: nat)
    requires j <= |s| && x in multiset(s[j..])
    ensures j <= p < |s| && s[p] == x
  {
    assert x in s[j..];
    var i :| 0 <= i < |s[j..]| && s[j..][i] == x;
    p := j + i;
  }

  lemma {:induction false} DealtLater(s: seq<RR>, ids: seq<nat>, ids': seq<nat>, j: nat)
    requires j <= |s| <= |ids| == |ids'| && ids[j..] == ids'[j..]
    ensures Dealt(s, ids, j) == Dealt(s, ids', j)
    decreases |s| - j
  {
    if j < |s| {
      assert ids[j] == ids[j..][0] == ids'[j..][0] == ids'[j];
      assert ids[j + 1..] == ids[j..][1..] == ids'[j + 1..];
      DealtLater(Swapped(s, j, j + ids[j] % (|s| - j)), ids, ids', j + 1);
    }
  }

  lemma SmallModulo(x: nat, m: nat)
    requires x < m
    ensures x % m == x
  {
  }

  lemma DealtStep(s: seq<RR>, ids: seq<nat>, j: nat, p: nat)
    requires j <= p < |s| <= |ids| && ids[j] == p - j
    ensures Dealt(s, ids, j) == Dealt(Swapped(s, j, p), ids, j + 1)
  {
    SmallModulo(p - j, |s| - j);
  }

  lemma {:induction false} AnyDeal(s: seq<RR>, t: seq<RR>, j: nat) returns (ids: seq<nat>)
    requires j <= |s| == |t| && s[..j] == t[..j] && multiset(s[j..]) == multiset(t[j..])
    ensures |ids| == |s| && Dealt(s, ids, j) == t && forall i :: 0 <= i < |ids| ==> ids[i] < |s|
    decreases |s| - j
  {
    if j == |s| {
      ids := seq(|s|, _ => 0);
      assert s == s[..j] && t == t[..j];
    } else {
      assert t[j] in t[j..];
      var p := FindFrom(s, j, t[j]);
      SwapPreserves(s, t, j, p);
      var later := AnyDeal(Swapped(s, j, p), t, j + 1);
      ids := later[j := p - j];
      assert later[j + 1..] == ids[j + 1..];
      DealtLater(Swapped(s, j, p), later, ids, j + 1);
      DealtStep(s, ids, j, p);
    }
  }

  lemma TwoOrders(s: seq<RR>, t: seq<RR>)
    requires multiset(s) == multiset(t) && |s| == |t| == 2
    ensures t == s || t == Swapped(s, 0, 1)
  {
    assert t[0] in multiset(s);
    var p: nat := if s[0] == t[0] then 0 else 1;
    SwapTail(s, t, p);
    var a, b := Swapped(s, 0, p)[1..], t[1..];
    assert a[0] in multiset(b);
    assert b[0] == a[0];
  }

  /** Every order of the records can come out, with random numbers below the number of records; a message has at most 2^16 of them. */
  lemma AnyOrderPossible(s: seq<RR>, t: seq<RR>) returns (ids: seq<nat>)
    requires multiset(s) == multiset(t)
    ensures |ids| == |s| && Shuffled(s, ids) == t && forall i :: 0 <= i < |ids| ==> ids[i] < |s|
    ensures |s| <= 0x1_0000 ==> forall i :: 0 <= i < |ids| ==> ids[i] < 0x1_0000
  {
    assert |s| == |multiset(s)| == |t|;
    if |s| == 2 {
      TwoOrders(s, t);
      ids := if s == t then [1, 1] else [0, 0];
    } else {
      assert s[0..] == s && t[0..] == t;
      ids := AnyDeal(s, t, 0);
    }
  }
}
