/**
 * The answer cache: what a reply leaves in the positive and the negative store, what a later query gets out of them
 * and with which TTL. Times and durations are in nanoseconds, as in the program.
 */
module Cache {
  import opened Bytes
  import opened Records
  import opened Options

  const SECOND := 1_000_000_000

  const RCODE_SUCCESS := 0
  const RCODE_SERVFAIL := 2
  const RCODE_NXDOMAIN := 3
  const RCODE_NOTIMP := 4

  const OPCODE_NOTIFY := 4
  const OPCODE_UPDATE := 5

  datatype Question = Question(name: Str, qtype: RType)

  datatype Msg = Msg(
    question: seq<Question>, response: bool, opcode: nat, truncated: bool, rcode: nat, ad: bool, ra: bool,
    answer: seq<RR>, ns: seq<RR>, extra: seq<RR>)

  datatype Query = Query(name: Str, qtype: RType, do: bool, cd: bool, ad: bool)

  datatype Item = Item(
    name: Str, qtype: RType, rcode: nat, ad: bool, ra: bool, answer: seq<RR>, ns: seq<RR>, extra: seq<RR>,
    origTtl: nat, stored: int)

  datatype Config = Config(minnttl: int, nttl: int, minpttl: int, pttl: int, failttl: int, staleUpTo: int, keepttl: bool)

  type Hash = (Str, RType, bool, bool) -> int

  /** The classes of `response.Typify`. */
  datatype Class = NoError | NameError | ServerError | NoData | Delegation | Meta | Update | OtherError

  predicate HasType(rrs: seq<RR>, t: RType) {
    exists i :: 0 <= i < |rrs| && rrs[i].rtype == t
  }

  /** `response.Typify`; `expired` says that the reply has the DO bit set and a signature outside its validity period. */
  function Typify(m: Msg, expired: bool): (c: Class)
    ensures c.NoError? || c.Delegation? || c.NoData? ==> m.rcode == RCODE_SUCCESS
    ensures c.NameError? ==> m.rcode == RCODE_NXDOMAIN
    ensures c.ServerError? ==> m.rcode == RCODE_SERVFAIL || m.rcode == RCODE_NOTIMP
  {
    if m.opcode == OPCODE_UPDATE then Update
    else if m.opcode == OPCODE_NOTIFY then Meta
    else if |m.question| > 0 && (m.question[0].qtype == TYPE_AXFR || m.question[0].qtype == TYPE_IXFR) then Meta
    else if expired then OtherError
    else if |m.answer| > 0 && m.rcode == RCODE_SUCCESS then NoError
    else if HasType(m.ns, TYPE_SOA) && m.rcode == RCODE_SUCCESS then NoData
    else if HasType(m.ns, TYPE_SOA) && m.rcode == RCODE_NXDOMAIN then NameError
    else if m.rcode == RCODE_SERVFAIL || m.rcode == RCODE_NOTIMP then ServerError
    else if HasType(m.ns, TYPE_NS) && m.rcode == RCODE_SUCCESS then Delegation
    else if m.rcode == RCODE_SUCCESS then NoError
    else OtherError
  }

  /** A reply to an ordinary query whose signatures, if they matter, are in force. */
  predicate Ordinary(m: Msg, expired: bool) {
    && m.opcode != OPCODE_UPDATE && m.opcode != OPCODE_NOTIFY && !expired
    && (m.question == [] || (m.question[0].qtype != TYPE_AXFR && m.question[0].qtype != TYPE_IXFR))
  }

  /** The classes by what the reply says, whatever the order of the tests. */
  lemma TypifyMeans(m: Msg, expired: bool)
    requires Ordinary(m, expired)
    ensures Typify(m, expired).NoData? <==> m.rcode == RCODE_SUCCESS && m.answer == [] && HasType(m.ns, TYPE_SOA)
    ensures Typify(m, expired).Delegation? <==>
      m.rcode == RCODE_SUCCESS && m.answer == [] && HasType(m.ns, TYPE_NS) && !HasType(m.ns, TYPE_SOA)
    ensures Typify(m, expired).NoError? <==>
      m.rcode == RCODE_SUCCESS && (m.answer != [] || (!HasType(m.ns, TYPE_NS) && !HasType(m.ns, TYPE_SOA)))
    ensures Typify(m, expired).NameError? <==> m.rcode == RCODE_NXDOMAIN && HasType(m.ns, TYPE_SOA)
    ensures Typify(m, expired).ServerError? <==> m.rcode == RCODE_SERVFAIL || m.rcode == RCODE_NOTIMP
    ensures !Typify(m, expired).Meta? && !Typify(m, expired).Update?
  {
  }

  lemma TypifyOthers(m: Msg, expired: bool)
    requires !Ordinary(m, expired)
    ensures Typify(m, expired).Update? || Typify(m, expired).Meta? || Typify(m, expired).OtherError?
  {
  }

  // ----- records -----

  /** The records other than OPT, all with the same TTL. */
  function Filtered(rrs: seq<RR>, ttl: nat): (rs: seq<RR>)
    ensures |rs| <= |rrs| && forall i :: 0 <= i < |rs| ==> rs[i].ttl == ttl && rs[i].rtype != TYPE_OPT
  {
    if rrs == [] then []
    else
      var front := Filtered(rrs[..|rrs| - 1], ttl);
      if rrs[|rrs| - 1].rtype == TYPE_OPT then front else front + [rrs[|rrs| - 1].(ttl := ttl)]
  }

  function NoOpt(rrs: seq<RR>): (rs: seq<RR>)
    ensures |rs| <= |rrs|
  {
    if rrs == [] then []
    else NoOpt(rrs[..|rrs| - 1]) + if rrs[|rrs| - 1].rtype == TYPE_OPT then [] else [rrs[|rrs| - 1]]
  }

  lemma {:induction false} FilteredAppend(a: seq<RR>, b: seq<RR>, ttl: nat)
    ensures Filtered(a + b, ttl) == Filtered(a, ttl) + Filtered(b, ttl)
    decreases |b|
  {
    if b == [] {
      assert a + b == a;
    } else {
      assert (a + b)[..|a + b| - 1] == a + b[..|b| - 1];
      FilteredAppend(a, b[..|b| - 1], ttl);
    }
  }

  lemma {:induction false} NoOptAppend(a: seq<RR>, b: seq<RR>)
    ensures NoOpt(a + b) == NoOpt(a) + NoOpt(b)
    decreases |b|
  {
    if b == [] {
      assert a + b == a;
    } else {
      assert (a + b)[..|a + b| - 1] == a + b[..|b| - 1];
      NoOptAppend(a, b[..|b| - 1]);
    }
  }

  /** Filtering goes record by record: an OPT record vanishes, any other one stays with the new TTL, in its place. */
  lemma FilteredOneByOne(a: seq<RR>, rr: RR, b: seq<RR>, ttl: nat)
    ensures Filtered(a + [rr] + b, ttl) == Filtered(a, ttl) + (if rr.rtype == TYPE_OPT then [] else [rr.(ttl := ttl)]) + Filtered(b, ttl)
    ensures NoOpt(a + [rr] + b) == NoOpt(a) + (if rr.rtype == TYPE_OPT then [] else [rr]) + NoOpt(b)
  {
    FilteredAppend(a + [rr], b, ttl);
    FilteredAppend(a, [rr], ttl);
    NoOptAppend(a + [rr], b);
    NoOptAppend(a, [rr]);
  }

  lemma {:induction false} FilterTwice(rrs: seq<RR>, a: nat, b: nat)
    ensures Filtered(Filtered(rrs, a), b) == Filtered(rrs, b)
  {
    if rrs != [] {
      var n := |rrs| - 1;
      FilterTwice(rrs[..n], a, b);
      if rrs[n].rtype != TYPE_OPT {
        assert Filtered(rrs, a)[..|Filtered(rrs, a)| - 1] == Filtered(rrs[..n], a);
      }
    }
  }

  lemma {:induction false} NoOptKeepsFiltered(rrs: seq<RR>, a: nat)
    ensures NoOpt(Filtered(rrs, a)) == Filtered(rrs, a)
  {
    if rrs != [] {
      var n := |rrs| - 1;
      NoOptKeepsFiltered(rrs[..n], a);
      if rrs[n].rtype != TYPE_OPT {
        assert Filtered(rrs, a)[..|Filtered(rrs, a)| - 1] == Filtered(rrs[..n], a);
      }
    }
  }

  lemma {:induction false} FilteredLength(rrs: seq<RR>, k: nat, ttl: nat)
    requires k <= |rrs|
    ensures |Filtered(rrs[..k], ttl)| <= |Filtered(rrs, ttl)|
    ensures k < |rrs| && rrs[k].rtype != TYPE_OPT ==> |Filtered(rrs[..k], ttl)| < |Filtered(rrs, ttl)|
  {
    var n := |rrs| - 1;
    if k < |rrs| {
      if k < n {
        FilteredLength(rrs[..n], k, ttl);
        assert rrs[..n][..k] == rrs[..k];
      }
    } else {
      assert rrs[..k] == rrs;
    }
  }

  method CountKept(rrs: seq<RR>, ghost ttl: nat) returns (n: nat)
    ensures n == |Filtered(rrs, ttl)|
  {
    n := 0;
    for i := 0 to |rrs|
      invariant n == |Filtered(rrs[..i], ttl)|
    {
      assert rrs[..i + 1][..i] == rrs[..i];
      if rrs[i].rtype != TYPE_OPT {
        n := n + 1;
      }
    }
    assert rrs[..|rrs|] == rrs;
  }

  /** `filterRRSlice`: counts, then fills a slice of that length. */
  method FilterRRSlice(rrs: seq<RR>, ttl: nat) returns (rs: seq<RR>)
    ensures rs == Filtered(rrs, ttl)
  {
    var n := CountKept(rrs, ttl);
    var slice := new RR[n](_ => RR([], TYPE_OPT, 0, Opaque([])));
    var j := 0;
    for i := 0 to |rrs|
      invariant j == |Filtered(rrs[..i], ttl)| <= n
      invariant slice[..j] == Filtered(rrs[..i], ttl)
    {
      assert rrs[..i + 1][..i] == rrs[..i];
      if rrs[i].rtype == TYPE_OPT {
        continue;
      }
      FilteredLength(rrs, i, ttl);
      slice[j] := rrs[i].(ttl := ttl);
      j := j + 1;
    }
    assert rrs[..|rrs|] == rrs;
    rs := slice[..];
  }

  // ----- storing a reply -----

  /** `d` is the value between the bounds that is nearest to `t`; the upper bound goes first. */
  ghost predicate Clamped(t: int, lo: int, hi: int, d: int) {
    && d <= hi && (lo <= hi ==> lo <= d) && (lo > hi ==> d == hi)
    && (lo <= t <= hi ==> d == t) && (t < lo <= hi ==> d == lo) && (t > hi ==> d == hi)
  }

  function ComputeTtl(msgTtl: int, minTtl: int, maxTtl: int): (d: int)
    ensures Clamped(msgTtl, minTtl, maxTtl, d)
  {
    var t := if msgTtl > minTtl then msgTtl else minTtl;
    if t < maxTtl then t else maxTtl
  }

  /**
   * A reply as it passes through the cache: the query it answers, the lowest TTL in it, the time, whether a prefetch
   * asked for it and whether its zone is on the exception list of its class.
   */
  datatype Write = Write(q: Query, msg: Msg, expired: bool, msgTtl: int, now: int, prefetch: bool, except: bool)

  function ClassOf(w: Write): Class {
    Typify(w.msg, w.expired)
  }

  function Duration(cfg: Config, w: Write): int {
    match ClassOf(w)
    case NameError | NoData => ComputeTtl(w.msgTtl, cfg.minnttl, cfg.nttl)
    case ServerError => cfg.failttl
    case _ => ComputeTtl(w.msgTtl, cfg.minpttl, cfg.pttl)
  }

  /** The lifetime by the class of the reply: denials within their bounds, failures fixed, all else within the others. */
  ghost predicate IsLifetime(cfg: Config, w: Write, d: int) {
    match ClassOf(w)
    case NameError | NoData => Clamped(w.msgTtl, cfg.minnttl, cfg.nttl, d)
    case ServerError => d == cfg.failttl
    case NoError | Delegation | Meta | Update | OtherError => Clamped(w.msgTtl, cfg.minpttl, cfg.pttl, d)
  }

  /** Whole seconds, towards zero. */
  function Seconds(d: int): int {
    if d >= 0 then d / SECOND else -((-d) / SECOND)
  }

  lemma SecondsRoundDown(d: int)
    ensures d >= 0 ==> Seconds(d) * SECOND <= d < (Seconds(d) + 1) * SECOND
    ensures d < 0 ==> (Seconds(d) - 1) * SECOND < d <= Seconds(d) * SECOND
  {
  }

  function Nat(x: int): nat {
    if x >= 0 then x else 0
  }

  /** The reply as it is handed on: OPT records gone, one TTL, AD only for those who asked. */
  function Handed(cfg: Config, w: Write): Msg {
    var ttl := Nat(Seconds(Duration(cfg, w)));
    var m := w.msg;
    m.(answer := Filtered(m.answer, ttl), ns := Filtered(m.ns, ttl), extra := Filtered(m.extra, ttl), ad := m.ad && (w.q.do || w.q.ad))
  }

  /** Not truncated, and neither an error nor a meta message. */
  predicate Cacheable(w: Write) {
    var c := ClassOf(w);
    !w.msg.truncated && !c.OtherError? && !c.Meta? && !c.Update?
  }

  /** `key` says yes. */
  predicate HasKey(w: Write) {
    Cacheable(w) && |w.msg.question| > 0
  }

  /** `key` reads the question of a reply that has none. */
  predicate Panics(w: Write) {
    Cacheable(w) && |w.msg.question| == 0
  }

  function KeyOf(hash: Hash, w: Write): int {
    if |w.msg.question| > 0 then hash(ToLower(w.q.name), w.msg.question[0].qtype, w.q.do, w.q.cd) else 0
  }

  /** `Request.Match`. */
  predicate Match(q: Query, m: Msg) {
    |m.question| == 1 && m.response && ToLower(m.question[0].name) == ToLower(q.name) && m.question[0].qtype == q.qtype
  }

  function ItemOf(m: Msg, now: int, d: int): Item {
    var q := if |m.question| > 0 then m.question[0] else Question([], 0);
    Item(q.name, q.qtype, m.rcode, m.ad, m.ra, m.answer, m.ns, NoOpt(m.extra), Nat(Seconds(d)), now)
  }

  /** `newItem`: the extra records go into a slice of full length that is cut in the end. */
  method NewItem(m: Msg, now: int, d: int) returns (i: Item)
    ensures i == ItemOf(m, now, d)
  {
    var name, qtype := [], 0;
    if |m.question| != 0 {
      name, qtype := m.question[0].name, m.question[0].qtype;
    }
    var slice := new RR[|m.extra|](_ => RR([], TYPE_OPT, 0, Opaque([])));
    var j := 0;
    for k := 0 to |m.extra|
      invariant j == |NoOpt(m.extra[..k])| <= k && slice[..j] == NoOpt(m.extra[..k])
    {
      assert m.extra[..k + 1][..k] == m.extra[..k];
      if m.extra[k].rtype == TYPE_OPT {
        continue;
      }
      slice[j] := m.extra[k];
      j := j + 1;
    }
    assert m.extra[..|m.extra|] == m.extra;
    i := Item(name, qtype, m.rcode, m.ad, m.ra, m.answer, m.ns, slice[..j], Nat(Seconds(d)), now);
  }

  datatype Stores = Stores(pos: map<int, Item>, neg: map<int, Item>)

  predicate Positive(c: Class) {
    c.NoError? || c.Delegation?
  }

  predicate Negative(c: Class) {
    c.NameError? || c.NoData? || c.ServerError?
  }

  /** The reply goes into a store. */
  predicate Kept(cfg: Config, w: Write) {
    HasKey(w) && Duration(cfg, w) > 0 && Match(w.q, Handed(cfg, w)) && !w.except
  }

  function Stored(cfg: Config, hash: Hash, st: Stores, w: Write): Stores {
    var i, k := ItemOf(Handed(cfg, w), w.now, Duration(cfg, w)), KeyOf(hash, w);
    if !Kept(cfg, w) then st
    else if Positive(ClassOf(w)) then Stores(st.pos[k := i], if w.prefetch then st.neg - {k} else st.neg)
    else st.(neg := st.neg[k := i])
  }

  /** What becomes of a reply. */
  datatype Written = Panicked | Swallowed | HandedOn(m: Msg)

  /** The reply may be kept for `d`: whole, of a class that is cached, an answer to the query, and not excepted. */
  ghost predicate MayKeep(w: Write, d: int) {
    && !w.msg.truncated && !ClassOf(w).OtherError? && !ClassOf(w).Meta? && !ClassOf(w).Update? && d > 0 && !w.except
    && |w.msg.question| == 1 && w.msg.response
    && ToLower(w.msg.question[0].name) == ToLower(w.q.name) && w.msg.question[0].qtype == w.q.qtype
  }

  /** The item that is kept: the reply without OPT records, with its own TTL, from now on. */
  ghost predicate IsItemOf(w: Write, d: int, i: Item)
    requires |w.msg.question| > 0
  {
    var ttl: nat := if d >= 0 then d / SECOND else 0;
    && i.name == w.msg.question[0].name && i.qtype == w.msg.question[0].qtype
    && i.rcode == w.msg.rcode && i.ra == w.msg.ra && i.ad == (w.msg.ad && (w.q.do || w.q.ad))
    && i.answer == Filtered(w.msg.answer, ttl) && i.ns == Filtered(w.msg.ns, ttl) && i.extra == Filtered(w.msg.extra, ttl)
    && i.origTtl == ttl && i.stored == w.now
  }

  /** Successes and delegations go to the positive store, denials and failures to the negative one, and nothing else changes. */
  ghost predicate KeptFor(hash: Hash, st: Stores, w: Write, d: int, st': Stores)
    requires |w.msg.question| > 0
  {
    var k, c := hash(ToLower(w.q.name), w.q.qtype, w.q.do, w.q.cd), ClassOf(w);
    if c.NoError? || c.Delegation? then
      && k in st'.pos && st'.pos == st.pos[k := st'.pos[k]] && IsItemOf(w, d, st'.pos[k])
      && st'.neg == (if w.prefetch then st.neg - {k} else st.neg)
    else k in st'.neg && st'.neg == st.neg[k := st'.neg[k]] && IsItemOf(w, d, st'.neg[k]) && st'.pos == st.pos
  }

  /** What the stores hold after a reply, from the fields of the reply and the configuration. */
  lemma ReplyIsKept(cfg: Config, hash: Hash, st: Stores, w: Write)
    ensures IsLifetime(cfg, w, Duration(cfg, w))
    ensures MayKeep(w, Duration(cfg, w)) ==> KeptFor(hash, st, w, Duration(cfg, w), Stored(cfg, hash, st, w))
    ensures !MayKeep(w, Duration(cfg, w)) ==> Stored(cfg, hash, st, w) == st
  {
    var d := Duration(cfg, w);
    if MayKeep(w, d) {
      NoOptKeepsFiltered(w.msg.extra, Nat(Seconds(d)));
      assert IsItemOf(w, d, ItemOf(Handed(cfg, w), w.now, d));
    }
  }

  /** The reply that is handed on carries what is left after OPT records are gone, all with the lifetime as their TTL. */
  ghost predicate IsHanded(w: Write, d: int, m: Msg) {
    var ttl: nat := if d >= 0 then d / SECOND else 0;
    && m.answer == Filtered(w.msg.answer, ttl) && m.ns == Filtered(w.msg.ns, ttl) && m.extra == Filtered(w.msg.extra, ttl)
    && m.ad == (w.msg.ad && (w.q.do || w.q.ad))
    && m == w.msg.(answer := m.answer, ns := m.ns, extra := m.extra, ad := m.ad)
  }

  lemma HandedIs(cfg: Config, w: Write)
    ensures IsHanded(w, Duration(cfg, w), Handed(cfg, w))
  {
  }

  /** The stores and the client get what they should, for the lifetime `d`. */
  ghost predicate WritesRight(hash: Hash, st: Stores, w: Write, d: int, st': Stores, out: Written) {
    && (out.HandedOn? ==> IsHanded(w, d, out.m)) && (out.Swallowed? <==> w.prefetch)
    && (if MayKeep(w, d) then KeptFor(hash, st, w, d, st') else st' == st)
  }

  // ----- looking up -----

  function Ttl(i: Item, now: int): int {
    i.origTtl - Seconds(now - i.stored)
  }

  predicate Matches(i: Item, q: Query) {
    q.qtype == i.qtype && ToLower(q.name) == ToLower(i.name)
  }

  predicate Servable(cfg: Config, i: Item, now: int, q: Query) {
    Matches(i, q) && (Ttl(i, now) > 0 || (cfg.staleUpTo > 0 && -Ttl(i, now) < Seconds(cfg.staleUpTo)))
  }

  function KeyFor(hash: Hash, q: Query): int {
    hash(ToLower(q.name), q.qtype, q.do, q.cd)
  }

  predicate ServableIn(cfg: Config, m: map<int, Item>, k: int, now: int, q: Query) {
    k in m && Servable(cfg, m[k], now, q)
  }

  /** A failed lookup upstream is cached only to bridge a moment: any servable positive entry goes first. */
  predicate DenialWins(cfg: Config, hash: Hash, st: Stores, now: int, q: Query) {
    && ServableIn(cfg, st.neg, KeyFor(hash, q), now, q)
    && (st.neg[KeyFor(hash, q)].rcode == RCODE_SERVFAIL ==> !ServableIn(cfg, st.pos, KeyFor(hash, q), now, q))
  }

  function GetIfNotStale(cfg: Config, hash: Hash, st: Stores, now: int, q: Query): (r: Option<Item>)
    ensures r.None? <==> !ServableIn(cfg, st.neg, KeyFor(hash, q), now, q) && !ServableIn(cfg, st.pos, KeyFor(hash, q), now, q)
    ensures DenialWins(cfg, hash, st, now, q) ==> r == Some(st.neg[KeyFor(hash, q)])
    ensures r.Some? && !DenialWins(cfg, hash, st, now, q) ==>
      ServableIn(cfg, st.pos, KeyFor(hash, q), now, q) && r == Some(st.pos[KeyFor(hash, q)])
  {
    var k := KeyFor(hash, q);
    if k in st.neg && Servable(cfg, st.neg[k], now, q) then
      var i := st.neg[k];
      if i.rcode == RCODE_SERVFAIL && k in st.pos && Servable(cfg, st.pos[k], now, q) then Some(st.pos[k]) else Some(i)
    else if k in st.pos && Servable(cfg, st.pos[k], now, q) then Some(st.pos[k])
    else None
  }

  /** The cache object: replies change the two stores, queries read them. */
  class Cache {
    const cfg: Config
    const hash: Hash
    var pcache: map<int, Item>
    var ncache: map<int, Item>

    constructor (cfg: Config, hash: Hash)
      ensures this.cfg == cfg && this.hash == hash && pcache == map[] && ncache == map[]
    {
      this.cfg, this.hash, pcache, ncache := cfg, hash, map[], map[];
    }

    method Set(w: Write, m: Msg, key: int, d: int)
      modifies this
      ensures pcache == if !w.except && Positive(ClassOf(w)) then old(pcache)[key := ItemOf(m, w.now, d)] else old(pcache)
      ensures ncache ==
        if !w.except && Negative(ClassOf(w)) then old(ncache)[key := ItemOf(m, w.now, d)]
        else if !w.except && Positive(ClassOf(w)) && w.prefetch then old(ncache) - {key}
        else old(ncache)
    {
      match ClassOf(w)
      case NoError | Delegation =>
        if w.except {
          return;
        }
        var i := NewItem(m, w.now, d);
        pcache := pcache[key := i];
        if w.prefetch {
          ncache := ncache - {key};
        }
      case NameError | NoData | ServerError =>
        if w.except {
          return;
        }
        var i := NewItem(m, w.now, d);
        ncache := ncache[key := i];
      case _ =>
    }

    /** The reply is handed on to the client, unless a prefetch asked for it or the goroutine panics. */
    method WriteMsg(w: Write) returns (out: Written)
      modifies this
      ensures out.Panicked? <==> Panics(w)
      ensures out.Panicked? ==> pcache == old(pcache) && ncache == old(ncache)
      ensures Stores(pcache, ncache) == Stored(cfg, hash, old(Stores(pcache, ncache)), w)
      ensures !out.Panicked? ==>
        exists d :: IsLifetime(cfg, w, d) && WritesRight(hash, old(Stores(pcache, ncache)), w, d, Stores(pcache, ncache), out)
    {
      ReplyIsKept(cfg, hash, Stores(pcache, ncache), w);
      HandedIs(cfg, w);
      if Panics(w) {
        return Panicked;
      }
      var res := w.msg;
      var d := Duration(cfg, w);
      var ttl := Nat(Seconds(d));
      var answer := FilterRRSlice(res.answer, ttl);
      var ns := FilterRRSlice(res.ns, ttl);
      var extra := FilterRRSlice(res.extra, ttl);
      res := res.(answer := answer, ns := ns, extra := extra);
      if !w.q.do && !w.q.ad {
        res := res.(ad := false);
      }
      if HasKey(w) && d > 0 && Match(w.q, res) {
        Set(w, res, KeyOf(hash, w), d);
      }
      assert res == Handed(cfg, w);
      out := if w.prefetch then Swallowed else HandedOn(res);
      assert WritesRight(hash, old(Stores(pcache, ncache)), w, d, Stores(pcache, ncache), out);
    }
  }

  /** A kept reply is found by everyone who asks the same question before it has expired, unless the other store goes first. */
  lemma FreshReplyIsFound(cfg: Config, hash: Hash, st: Stores, w: Write, now: int, q: Query)
    requires MayKeep(w, Duration(cfg, w)) && w.now <= now < w.now + (Duration(cfg, w) / SECOND) * SECOND
    requires ToLower(q.name) == ToLower(w.q.name) && q.qtype == w.q.qtype && q.do == w.q.do && q.cd == w.q.cd
    ensures var r, c := GetIfNotStale(cfg, hash, Stored(cfg, hash, st, w), now, q), ClassOf(w);
      && (c.NameError? || c.NoData? ==> r.Some? && IsItemOf(w, Duration(cfg, w), r.value))
      && (c.ServerError? && !ServableIn(cfg, st.pos, KeyFor(hash, q), now, q) ==> r.Some? && IsItemOf(w, Duration(cfg, w), r.value))
      && ((c.NoError? || c.Delegation?) && (w.prefetch || !ServableIn(cfg, st.neg, KeyFor(hash, q), now, q)) ==>
            r.Some? && IsItemOf(w, Duration(cfg, w), r.value))
  {
    ReplyIsKept(cfg, hash, st, w);
    var st', k, d := Stored(cfg, hash, st, w), KeyFor(hash, q), Duration(cfg, w);
    var i := if Positive(ClassOf(w)) then st'.pos[k] else st'.neg[k];
    assert IsItemOf(w, d, i);
    ServableIff(cfg, i, now, q);
    StaysServable(cfg, i, now, q);
  }

  lemma StaysServable(cfg: Config, i: Item, now: int, q: Query)
    requires now >= i.stored && now < i.stored + i.origTtl * SECOND && q.qtype == i.qtype && ToLower(q.name) == ToLower(i.name)
    ensures Servable(cfg, i, now, q)
  {
    ServableIff(cfg, i, now, q);
  }

  // ----- serving from the cache -----

  /** `toMsg`: a reply to `q` built from the item as of `now`. */
  method ToMsg(i: Item, q: Query, now: int) returns (m: Msg)
    requires Ttl(i, now) >= 0
    ensures m.question == [Question(q.name, q.qtype)] && m.response && !m.truncated && m.rcode == i.rcode && m.ra == i.ra
    ensures m.ad == (i.ad && (q.do || q.ad))
    ensures m.answer == Filtered(i.answer, Ttl(i, now)) && m.ns == Filtered(i.ns, Ttl(i, now)) && m.extra == Filtered(i.extra, Ttl(i, now))
  {
    var ad := i.ad;
    if !q.do && !q.ad {
      ad := false;
    }
    var ttl := Ttl(i, now);
    var answer := FilterRRSlice(i.answer, ttl);
    var ns := FilterRRSlice(i.ns, ttl);
    var extra := FilterRRSlice(i.extra, ttl);
    m := Msg([Question(q.name, q.qtype)], true, 0, false, i.rcode, ad, i.ra, answer, ns, extra);
  }

  /** Moving the clock back by the (negative) TTL makes the TTL exactly 0. */
  lemma ShiftedTtlIsZero(i: Item, now: int)
    requires Ttl(i, now) < 0
    ensures Ttl(i, now + Ttl(i, now) * SECOND) == 0
  {
    var e := now - i.stored;
    assert e >= 0;
    assert e + Ttl(i, now) * SECOND == i.origTtl * SECOND + e % SECOND;
    assert (i.origTtl * SECOND + e % SECOND) / SECOND == i.origTtl;
  }

  /** The end of `ServeDNS` on a hit, when no verification of a stale item replaced it. */
  method ServeHit(cfg: Config, i: Item, q: Query, start: int) returns (m: Msg, ttl: nat)
    ensures m.rcode == i.rcode && m.answer == Filtered(i.answer, ttl) && m.ns == Filtered(i.ns, ttl) && m.extra == Filtered(i.extra, ttl)
    ensures m.question == [Question(q.name, q.qtype)] && m.ad == (i.ad && (q.do || q.ad))
    ensures cfg.keepttl ==> ttl == i.origTtl
    ensures !cfg.keepttl && Ttl(i, start) >= 0 ==> ttl == Ttl(i, start)
    ensures !cfg.keepttl && Ttl(i, start) < 0 ==> ttl == 0
    ensures start >= i.stored ==> ttl <= i.origTtl
  {
    var now := start;
    var left := Ttl(i, now);
    if left < 0 {
      ShiftedTtlIsZero(i, now);
      now := now + left * SECOND;
    }
    if cfg.keepttl {
      now := i.stored;
    }
    m := ToMsg(i, q, now);
    ttl := Ttl(i, now);
  }

  /**
   * An item is served exactly to those who ask for its name and type before its lifetime, extended by the whole seconds of
   * the stale window, is over; it is live exactly before its lifetime is.
   */
  lemma ServableIff(cfg: Config, i: Item, now: int, q: Query)
    requires now >= i.stored
    ensures Ttl(i, now) > 0 <==> now < i.stored + i.origTtl * SECOND
    ensures Servable(cfg, i, now, q) <==>
      && q.qtype == i.qtype && ToLower(q.name) == ToLower(i.name)
      && now < i.stored + (i.origTtl + (if cfg.staleUpTo > 0 then cfg.staleUpTo / SECOND else 0)) * SECOND
  {
    var e := now - i.stored;
    assert e == (e / SECOND) * SECOND + e % SECOND;
    assert Ttl(i, now) == i.origTtl - e / SECOND;
  }

  // ----- whole runs -----

  /** A reply is written, or entries of either store vanish. */
  datatype Event = Wrote(w: Write) | Evicted(pos: set<int>, neg: set<int>)

  function Next(cfg: Config, hash: Hash, st: Stores, e: Event): Stores {
    match e
    case Wrote(w) => Stored(cfg, hash, st, w)
    case Evicted(pos, neg) => Stores(st.pos - pos, st.neg - neg)
  }

  function After(cfg: Config, hash: Hash, es: seq<Event>): Stores {
    if es == [] then Stores(map[], map[]) else Next(cfg, hash, After(cfg, hash, es[..|es| - 1]), es[|es| - 1])
  }

  /** The item at `k` was made by this event. */
  ghost predicate MadeBy(cfg: Config, hash: Hash, e: Event, k: int, i: Item) {
    && e.Wrote? && Kept(cfg, e.w) && k == KeyFor(hash, e.w.q)
    && i == ItemOf(Handed(cfg, e.w), e.w.now, Duration(cfg, e.w))
  }

  ghost predicate MadeIn(cfg: Config, hash: Hash, es: seq<Event>, k: int, i: Item, positive: bool) {
    exists j :: 0 <= j < |es| && MadeBy(cfg, hash, es[j], k, i) && Positive(ClassOf(es[j].w)) == positive
  }

  ghost predicate StoresMade(cfg: Config, hash: Hash, es: seq<Event>, st: Stores) {
    && (forall k :: k in st.pos ==> MadeIn(cfg, hash, es, k, st.pos[k], true))
    && (forall k :: k in st.neg ==> MadeIn(cfg, hash, es, k, st.neg[k], false))
  }

  lemma MadeLater(cfg: Config, hash: Hash, es: seq<Event>, k: int, i: Item, positive: bool)
    requires es != [] && MadeIn(cfg, hash, es[..|es| - 1], k, i, positive)
    ensures MadeIn(cfg, hash, es, k, i, positive)
  {
    var j :| 0 <= j < |es| - 1 && MadeBy(cfg, hash, es[j], k, i) && Positive(ClassOf(es[j].w)) == positive;
  }

  /** Every entry of either store was made by an earlier reply of the store's own classes. */
  lemma {:induction false} EveryItemWasMade(cfg: Config, hash: Hash, es: seq<Event>)
    ensures StoresMade(cfg, hash, es, After(cfg, hash, es))
  {
    if es != [] {
      var n := |es| - 1;
      var old', new', e := After(cfg, hash, es[..n]), After(cfg, hash, es), es[n];
      EveryItemWasMade(cfg, hash, es[..n]);
      forall k | k in new'.pos ensures MadeIn(cfg, hash, es, k, new'.pos[k], true) {
        if k in old'.pos && new'.pos[k] == old'.pos[k] { MadeLater(cfg, hash, es, k, new'.pos[k], true); }
        else { assert MadeBy(cfg, hash, es[n], k, new'.pos[k]); }
      }
      forall k | k in new'.neg ensures MadeIn(cfg, hash, es, k, new'.neg[k], false) {
        if k in old'.neg && new'.neg[k] == old'.neg[k] { MadeLater(cfg, hash, es, k, new'.neg[k], false); }
        else { assert MadeBy(cfg, hash, es[n], k, new'.neg[k]); }
      }
    }
  }

  ghost predicate Injective(hash: Hash) {
    forall n, t, d, c, n', t', d', c' :: hash(n, t, d, c) == hash(n', t', d', c') ==> n == n' && t == t' && d == d' && c == c'
  }

  /** Serving `i` to `q` replays the reply that went by in `w`. */
  ghost predicate Replays(w: Write, q: Query, i: Item) {
    && !w.msg.truncated && i.rcode == w.msg.rcode
    && ToLower(w.q.name) == ToLower(q.name) && w.q.qtype == q.qtype && Match(w.q, w.msg)
    && (i.ad ==> w.msg.ad) && i.ra == w.msg.ra
    && forall t: nat ::
      Filtered(i.answer, t) == Filtered(w.msg.answer, t) && Filtered(i.ns, t) == Filtered(w.msg.ns, t) && Filtered(i.extra, t) == Filtered(w.msg.extra, t)
  }

  lemma MadeReplays(cfg: Config, hash: Hash, e: Event, q: Query, i: Item)
    requires MadeBy(cfg, hash, e, KeyFor(hash, q), i) && Matches(i, q)
    ensures Replays(e.w, q, i)
    ensures Injective(hash) ==> e.w.q.do == q.do && e.w.q.cd == q.cd
  {
    var w := e.w;
    var ttl := Nat(Seconds(Duration(cfg, w)));
    NoOptKeepsFiltered(w.msg.extra, ttl);
    forall t: nat ensures
      Filtered(i.answer, t) == Filtered(w.msg.answer, t) && Filtered(i.ns, t) == Filtered(w.msg.ns, t) && Filtered(i.extra, t) == Filtered(w.msg.extra, t)
    {
      FilterTwice(w.msg.answer, ttl, t);
      FilterTwice(w.msg.ns, ttl, t);
      FilterTwice(w.msg.extra, ttl, t);
    }
  }

  /**
   * Every hit, in every run with any evictions and any hash: it replays an earlier reply to the same name and type, and
   * with a hash without collisions to the same DO and CD bits.
   */
  lemma HitReplaysReply(cfg: Config, hash: Hash, es: seq<Event>, now: int, q: Query, i: Item)
    requires GetIfNotStale(cfg, hash, After(cfg, hash, es), now, q) == Some(i)
    ensures exists j :: 0 <= j < |es| && es[j].Wrote? && Replays(es[j].w, q, i) && (Injective(hash) ==> es[j].w.q.do == q.do && es[j].w.q.cd == q.cd)
  {
    var st, k := After(cfg, hash, es), KeyFor(hash, q);
    EveryItemWasMade(cfg, hash, es);
    var positive := !DenialWins(cfg, hash, st, now, q);
    assert MadeIn(cfg, hash, es, k, i, positive);
    var j :| 0 <= j < |es| && MadeBy(cfg, hash, es[j], k, i) && Positive(ClassOf(es[j].w)) == positive;
    MadeReplays(cfg, hash, es[j], q, i);
  }

  /** The stores hold their own response codes only, so no failure hides a servable positive entry. */
  lemma FailureNeverHidesAnswer(cfg: Config, hash: Hash, es: seq<Event>, now: int, q: Query)
    ensures forall k :: k in After(cfg, hash, es).pos ==> After(cfg, hash, es).pos[k].rcode == RCODE_SUCCESS
    ensures ServableIn(cfg, After(cfg, hash, es).pos, KeyFor(hash, q), now, q) ==>
      GetIfNotStale(cfg, hash, After(cfg, hash, es), now, q).Some? && GetIfNotStale(cfg, hash, After(cfg, hash, es), now, q).value.rcode != RCODE_SERVFAIL
  {
    EveryItemWasMade(cfg, hash, es);
    var st := After(cfg, hash, es);
    forall k | k in st.pos ensures st.pos[k].rcode == RCODE_SUCCESS {
      assert MadeIn(cfg, hash, es, k, st.pos[k], true);
    }
  }
}
