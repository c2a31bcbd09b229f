/**
 * Zone transfer: `Zone.Transfer` prints a generation, `Zone.Insert` on the other side parses it back, and
 * `Zone.TransferIn` tries one primary after the other.
 */
module Transfer {
  import opened Names
  import opened Records
  import opened ZoneTree
  import opened Zones
  import opened Options

  // ----- printing -----

  /** `Apex.records`. */
  function ApexRecords(a: Apex): Option<seq<RR>> {
    if a.soa.None? then None else Some([a.soa.value] + a.sigsoa + a.ns + a.signs)
  }

  /** `Elem.All`: the types come in whatever order the map is iterated in. */
  function ElemAll(e: Elem, order: seq<RType>): seq<RR> {
    if order == [] then [] else OfType(e, order[0]) + ElemAll(e, order[1..])
  }

  ghost predicate Enumerates(order: seq<RType>, e: Elem) {
    (forall t :: t in order <==> t in e) && forall i, j :: 0 <= i < j < |order| ==> order[i] != order[j]
  }

  /** The iteration order chosen at each node; the order of a node that is not listed does not matter. */
  type Orders = map<Name, seq<RType>>

  function OrderAt(orders: Orders, n: Name): seq<RType> {
    if n in orders then orders[n] else []
  }

  ghost predicate OrdersFit(orders: Orders, m: map<Name, Elem>) {
    forall n :: n in m ==> Enumerates(OrderAt(orders, n), m[n])
  }

  /** The nodes of the tree in order, one message each. */
  function WalkTree(t: Tree, orders: Orders): seq<seq<RR>> {
    match t
    case Nil => []
    case Node(l, k, e, r, _) => WalkTree(l, orders) + [ElemAll(e, OrderAt(orders, k))] + WalkTree(r, orders)
  }

  /** `Zone.Transfer`: the messages sent on the channel for a generation that has a SOA. */
  function Messages(z: ZoneData, serial: nat, orders: Orders): (r: seq<seq<RR>>)
    requires z.apex.soa.Some?
  {
    var soa := z.apex.soa.value;
    if serial != 0 && soa.data == Soa(serial) then [[soa]]
    else [ApexRecords(z.apex).value] + WalkTree(z.tree, orders) + [[soa]]
  }

  function Flatten(ms: seq<seq<RR>>): seq<RR> {
    if ms == [] then [] else ms[0] + Flatten(ms[1..])
  }

  // ----- the round trip -----

  lemma {:induction false} CollectAppend(a: seq<RR>, b: seq<RR>, origin: Name, n: Name, t: RType)
    ensures Collect(a + b, origin, n, t) == Collect(a, origin, n, t) + Collect(b, origin, n, t)
  {
    if a == [] {
      assert a + b == b;
    } else {
      assert (a + b)[0] == a[0] && (a + b)[1..] == a[1..] + b;
      CollectAppend(a[1..], b, origin, n, t);
    }
  }

  lemma {:induction false} SelectAppend(a: seq<RR>, b: seq<RR>, origin: Name, p: Place)
    ensures Select(a + b, origin, p) == Select(a, origin, p) + Select(b, origin, p)
  {
    if a == [] {
      assert a + b == b;
    } else {
      assert (a + b)[0] == a[0] && (a + b)[1..] == a[1..] + b;
      SelectAppend(a[1..], b, origin, p);
    }
  }

  lemma {:induction false} FlattenAppend(a: seq<seq<RR>>, b: seq<seq<RR>>)
    ensures Flatten(a + b) == Flatten(a) + Flatten(b)
  {
    if a == [] {
      assert a + b == b;
    } else {
      assert (a + b)[0] == a[0] && (a + b)[1..] == a[1..] + b;
      FlattenAppend(a[1..], b);
    }
  }

  /** Records that all belong to one place are selected there and nowhere else. */
  lemma {:induction false} SelectUniform(rs: seq<RR>, origin: Name, p: Place, p': Place)
    requires forall rr :: rr in rs ==> PlaceOf(origin, rr) == p
    ensures Select(rs, origin, p') == if p == p' then rs else []
  {
    if rs != [] {
      assert forall rr :: rr in rs[1..] ==> rr in rs;
      SelectUniform(rs[1..], origin, p, p');
      assert rs == [rs[0]] + rs[1..];
    }
  }

  lemma {:induction false} CollectNone(rs: seq<RR>, origin: Name, n: Name, t: RType)
    requires forall rr :: rr in rs ==> !(PlaceOf(origin, rr) == InTree && rr.owner == n && rr.rtype == t)
    ensures Collect(rs, origin, n, t) == []
  {
    if rs != [] {
      assert forall rr :: rr in rs[1..] ==> rr in rs;
      CollectNone(rs[1..], origin, n, t);
    }
  }

  lemma {:induction false} CollectUniform(rs: seq<RR>, origin: Name, n: Name, t: RType)
    requires InPlace(rs, origin, n, t)
    ensures Collect(rs, origin, n, t) == rs
  {
    if rs != [] {
      assert forall rr :: rr in rs[1..] ==> rr in rs;
      CollectUniform(rs[1..], origin, n, t);
      assert rs == [rs[0]] + rs[1..];
    }
  }

  /** The node `k` holds only records of its own, in place. */
  ghost predicate ElemInPlace(e: Elem, origin: Name, k: Name) {
    forall t :: InPlace(OfType(e, t), origin, k, t)
  }

  /** Whatever the order of the types, a node's message yields each type's records in their order. */
  lemma {:induction false} ElemAllCollects(e: Elem, order: seq<RType>, origin: Name, k: Name, n: Name, t: RType)
    requires ElemInPlace(e, origin, k) && forall i, j :: 0 <= i < j < |order| ==> order[i] != order[j]
    ensures Collect(ElemAll(e, order), origin, n, t) == if n == k && t in order then OfType(e, t) else []
    decreases |order|
  {
    if order != [] {
      var h, rest := order[0], order[1..];
      ElemAllCollects(e, rest, origin, k, n, t);
      CollectAppend(OfType(e, h), ElemAll(e, rest), origin, n, t);
      assert InPlace(OfType(e, h), origin, k, h);
      if n == k && t == h {
        CollectUniform(OfType(e, h), origin, k, h);
        assert t !in rest;
      } else {
        CollectNone(OfType(e, h), origin, n, t);
      }
    }
  }

  lemma {:induction false} ElemAllInTree(e: Elem, order: seq<RType>, origin: Name, k: Name)
    requires ElemInPlace(e, origin, k)
    ensures forall rr :: rr in ElemAll(e, order) ==> PlaceOf(origin, rr) == InTree
    decreases |order|
  {
    if order != [] {
      assert InPlace(OfType(e, order[0]), origin, k, order[0]);
      ElemAllInTree(e, order[1..], origin, k);
    }
  }

  ghost predicate TreeInPlace(t: Tree, origin: Name) {
    forall n :: n in Contents(t) ==> ElemInPlace(Contents(t)[n], origin, n)
  }

  /** What holds for all nodes of a tree holds for the nodes of its subtrees and for its root. */
  lemma Subtrees(t: Tree, origin: Name, orders: Orders)
    requires t.Node? && Ordered(t) && TreeInPlace(t, origin) && OrdersFit(orders, Contents(t))
    ensures TreeInPlace(t.left, origin) && OrdersFit(orders, Contents(t.left))
    ensures TreeInPlace(t.right, origin) && OrdersFit(orders, Contents(t.right))
    ensures ElemInPlace(t.elem, origin, t.key) && Enumerates(OrderAt(orders, t.key), t.elem)
  {
    assert Contents(t)[t.key] == t.elem;
    forall n | n in Contents(t.left)
      ensures ElemInPlace(Contents(t.left)[n], origin, n) && Enumerates(OrderAt(orders, n), Contents(t.left)[n])
    {
      Disjoint(t, n);
    }
    forall n | n in Contents(t.right)
      ensures ElemInPlace(Contents(t.right)[n], origin, n) && Enumerates(OrderAt(orders, n), Contents(t.right)[n])
    {
      Disjoint(t, n);
    }
  }

  lemma {:induction false} WalkCollects(t: Tree, orders: Orders, origin: Name, n: Name, tp: RType)
    requires Ordered(t) && TreeInPlace(t, origin) && OrdersFit(orders, Contents(t))
    ensures Collect(Flatten(WalkTree(t, orders)), origin, n, tp) == Held(t, n, tp)
  {
    if t.Node? {
      Subtrees(t, origin, orders);
      WalkCollects(t.left, orders, origin, n, tp);
      WalkCollects(t.right, orders, origin, n, tp);
      ElemAllCollects(t.elem, OrderAt(orders, t.key), origin, t.key, n, tp);
      CollectThree(WalkTree(t.left, orders), ElemAll(t.elem, OrderAt(orders, t.key)), WalkTree(t.right, orders), origin, n, tp);
      HeldInNode(t, n, tp);
    }
  }

  /** The records of type `tp` at `n`, none if `n` is not stored. */
  function Held(t: Tree, n: Name, tp: RType): seq<RR> {
    if n in Contents(t) then OfType(Contents(t)[n], tp) else []
  }

  lemma HeldInNode(t: Tree, n: Name, tp: RType)
    requires t.Node? && Ordered(t)
    ensures Held(t, n, tp) == Held(t.left, n, tp) + (if n == t.key then OfType(t.elem, tp) else []) + Held(t.right, n, tp)
  {
    Disjoint(t, n);
  }

  lemma CollectThree(l: seq<seq<RR>>, m: seq<RR>, r: seq<seq<RR>>, origin: Name, n: Name, tp: RType)
    ensures Collect(Flatten(l + [m] + r), origin, n, tp) ==
      Collect(Flatten(l), origin, n, tp) + Collect(m, origin, n, tp) + Collect(Flatten(r), origin, n, tp)
  {
    FlattenThree(l, m, r);
    CollectAppend(Flatten(l) + m, Flatten(r), origin, n, tp);
    CollectAppend(Flatten(l), m, origin, n, tp);
  }

  lemma FlattenThree(l: seq<seq<RR>>, m: seq<RR>, r: seq<seq<RR>>)
    ensures Flatten(l + [m] + r) == Flatten(l) + m + Flatten(r)
  {
    FlattenAppend(l + [m], r);
    FlattenAppend(l, [m]);
    assert [m][1..] == [] && m + [] == m;
    assert Flatten([m]) == m;
  }

  lemma {:induction false} WalkInTree(t: Tree, orders: Orders, origin: Name)
    requires Ordered(t) && TreeInPlace(t, origin) && OrdersFit(orders, Contents(t))
    ensures forall rr :: rr in Flatten(WalkTree(t, orders)) ==> PlaceOf(origin, rr) == InTree
  {
    if t.Node? {
      Subtrees(t, origin, orders);
      WalkInTree(t.left, orders, origin);
      WalkInTree(t.right, orders, origin);
      ElemAllInTree(t.elem, OrderAt(orders, t.key), origin, t.key);
      FlattenThree(WalkTree(t.left, orders), ElemAll(t.elem, OrderAt(orders, t.key)), WalkTree(t.right, orders));
    }
  }

  /** The full stream of a generation. */
  function Stream(z: ZoneData, orders: Orders): seq<RR>
    requires z.apex.soa.Some?
  {
    [z.apex.soa.value] + z.apex.sigsoa + z.apex.ns + z.apex.signs + Flatten(WalkTree(z.tree, orders)) + [z.apex.soa.value]
  }

  /** What is sent: the SOA alone when the receiver has the serial already, else apex, tree and the SOA again. */
  lemma StreamIsMessages(z: ZoneData, serial: nat, orders: Orders)
    requires z.apex.soa.Some?
    ensures serial != 0 && z.apex.soa.value.data == Soa(serial) ==> Flatten(Messages(z, serial, orders)) == [z.apex.soa.value]
    ensures serial == 0 || z.apex.soa.value.data != Soa(serial) ==> Flatten(Messages(z, serial, orders)) == Stream(z, orders)
  {
    var soa := [z.apex.soa.value];
    assert [soa][1..] == [] && soa + [] == soa;
    if serial != 0 && z.apex.soa.value.data == Soa(serial) {
      assert Flatten([soa]) == soa + Flatten([]) == soa;
      return;
    }
    FlattenThree([ApexRecords(z.apex).value] + WalkTree(z.tree, orders), soa, []);
    assert [ApexRecords(z.apex).value] + WalkTree(z.tree, orders) + [soa] + [] == Messages(z, serial, orders);
    FlattenThree([], ApexRecords(z.apex).value, WalkTree(z.tree, orders));
    assert [] + [ApexRecords(z.apex).value] + WalkTree(z.tree, orders) == [ApexRecords(z.apex).value] + WalkTree(z.tree, orders);
  }

  lemma BuiltInPlace(z: ZoneData)
    requires Built(z)
    ensures TreeInPlace(z.tree, z.origin)
  {
    forall n, t | n in Contents(z.tree)
      ensures InPlace(OfType(Contents(z.tree)[n], t), z.origin, n, t)
    {
      assert InPlace(At(z, n, t), z.origin, n, t);
    }
  }

  ghost predicate ApexInPlace(a: Apex, o: Name) {
    && a.soa.Some? && PlaceOf(o, a.soa.value) == InSoa
    && (forall rr :: rr in a.ns ==> PlaceOf(o, rr) == InNs)
    && (forall rr :: rr in a.sigsoa ==> PlaceOf(o, rr) == InSigSoa)
    && (forall rr :: rr in a.signs ==> PlaceOf(o, rr) == InSigNs)
  }

  function ApexPart(a: Apex, p: Place): seq<RR>
    requires a.soa.Some?
  {
    match p
    case InSoa => [a.soa.value]
    case InSigSoa => a.sigsoa
    case InNs => a.ns
    case InSigNs => a.signs
    case _ => []
  }

  lemma SelectFour(a: seq<RR>, b: seq<RR>, c: seq<RR>, d: seq<RR>, o: Name, p: Place)
    ensures Select(a + b + c + d, o, p) == Select(a, o, p) + Select(b, o, p) + Select(c, o, p) + Select(d, o, p)
  {
    SelectAppend(a, b, o, p);
    SelectAppend(a + b, c, o, p);
    SelectAppend(a + b + c, d, o, p);
  }

  lemma ApexSelects(a: Apex, o: Name, p: Place)
    requires ApexInPlace(a, o)
    ensures Select(ApexRecords(a).value, o, p) == ApexPart(a, p)
  {
    var soa := [a.soa.value];
    SelectFour(soa, a.sigsoa, a.ns, a.signs, o, p);
    SelectUniform(soa, o, InSoa, p);
    SelectUniform(a.sigsoa, o, InSigSoa, p);
    SelectUniform(a.ns, o, InNs, p);
    SelectUniform(a.signs, o, InSigNs, p);
  }

  lemma ApexCollectsNothing(a: Apex, o: Name, n: Name, t: RType)
    requires ApexInPlace(a, o)
    ensures Collect(ApexRecords(a).value, o, n, t) == [] && Collect([a.soa.value], o, n, t) == []
  {
    CollectNone(ApexRecords(a).value, o, n, t);
    CollectNone([a.soa.value], o, n, t);
  }

  lemma StreamSelects(z: ZoneData, orders: Orders, p: Place)
    requires ApexInPlace(z.apex, z.origin) && Ordered(z.tree) && TreeInPlace(z.tree, z.origin) && OrdersFit(orders, Contents(z.tree))
    requires p != InTree
    ensures Select(Stream(z, orders), z.origin, p) == ApexPart(z.apex, p) + if p == InSoa then [z.apex.soa.value] else []
  {
    var o, soa := z.origin, [z.apex.soa.value];
    var head, body := ApexRecords(z.apex).value, Flatten(WalkTree(z.tree, orders));
    WalkInTree(z.tree, orders, o);
    SelectUniform(body, o, InTree, p);
    SelectUniform(soa, o, InSoa, p);
    ApexSelects(z.apex, o, p);
    SelectAppend(head, body, o, p);
    SelectAppend(head + body, soa, o, p);
  }

  lemma StreamCollects(z: ZoneData, orders: Orders, n: Name, t: RType)
    requires ApexInPlace(z.apex, z.origin) && Ordered(z.tree) && TreeInPlace(z.tree, z.origin) && OrdersFit(orders, Contents(z.tree))
    ensures Collect(Stream(z, orders), z.origin, n, t) == At(z, n, t)
  {
    var o, soa := z.origin, [z.apex.soa.value];
    var head, body := ApexRecords(z.apex).value, Flatten(WalkTree(z.tree, orders));
    WalkCollects(z.tree, orders, o, n, t);
    ApexCollectsNothing(z.apex, o, n, t);
    CollectMiddle(head, body, soa, o, n, t);
  }

  lemma CollectMiddle(head: seq<RR>, body: seq<RR>, tail: seq<RR>, origin: Name, n: Name, t: RType)
    requires Collect(head, origin, n, t) == [] && Collect(tail, origin, n, t) == []
    ensures Collect(head + body + tail, origin, n, t) == Collect(body, origin, n, t)
  {
    CollectAppend(head, body, origin, n, t);
    CollectAppend(head + body, tail, origin, n, t);
  }

  lemma RebuildsApex(z: ZoneData, orders: Orders)
    requires ApexInPlace(z.apex, z.origin) && Ordered(z.tree) && TreeInPlace(z.tree, z.origin) && OrdersFit(orders, Contents(z.tree))
    ensures InsertAll(Fresh(z.origin), Stream(z, orders)).Some?
    ensures InsertAll(Fresh(z.origin), Stream(z, orders)).value.origin == z.origin
    ensures InsertAll(Fresh(z.origin), Stream(z, orders)).value.apex == z.apex
  {
    var rs, f := Stream(z, orders), Fresh(z.origin);
    StreamSelects(z, orders, Refused);
    InsertAllSucceeds(f, rs);
    InsertAllApex(f, rs);
    StreamSelects(z, orders, InSoa);
    StreamSelects(z, orders, InNs);
    StreamSelects(z, orders, InSigSoa);
    StreamSelects(z, orders, InSigNs);
    assert [] + z.apex.ns == z.apex.ns && [] + z.apex.sigsoa == z.apex.sigsoa && [] + z.apex.signs == z.apex.signs;
  }

  /** The records are the same, whatever the shape of the trees. */
  ghost predicate SameZone(a: ZoneData, b: ZoneData) {
    a.origin == b.origin && a.apex == b.apex && Contents(a.tree) == Contents(b.tree)
  }

  /** Inserting a transferred stream into a fresh zone rebuilds the generation: same apex, same records everywhere. */
  lemma TransferRebuilds(z: ZoneData, orders: Orders)
    requires Built(z) && z.apex.soa.Some? && OrdersFit(orders, Contents(z.tree))
    ensures InsertAll(Fresh(z.origin), Stream(z, orders)).Some?
    ensures SameZone(InsertAll(Fresh(z.origin), Stream(z, orders)).value, z)
  {
    var rs, f := Stream(z, orders), Fresh(z.origin);
    BuiltInPlace(z);
    RebuildsApex(z, orders);
    var r := InsertAll(f, rs).value;
    forall n, t
      ensures At(r, n, t) == At(z, n, t)
    {
      StreamCollects(z, orders, n, t);
      InsertAllCollects(f, rs, n, t);
    }
    InsertAllCollects(f, rs, [], 0);
    SameRecordsSameContents(r, z);
  }

  // ----- transfers while the zone is replaced -----

  /** An outgoing transfer: the generation its snapshot holds, the messages sent and the zone the receiver has built from them. */
  datatype Outgoing = Outgoing(gen: nat, orders: Orders, sent: nat, received: Option<ZoneData>)

  /** `history` lists the generations that `setData` installed, the live one last. */
  datatype Primary = Primary(history: seq<ZoneData>, transfers: map<nat, Outgoing>)

  datatype Event =
    | SetData(z: ZoneData)
    | Start(id: nat, orders: Orders)
    | Send(id: nat)

  function MessagesOf(p: Primary, x: Outgoing): seq<seq<RR>>
    requires x.gen < |p.history| && p.history[x.gen].apex.soa.Some?
  {
    Messages(p.history[x.gen], 0, x.orders)
  }

  /** One step of the primary; a transfer starts from the live generation and only from one that has a SOA. */
  ghost predicate Step(p: Primary, e: Event, p': Primary) {
    match e
    case SetData(z) => Built(z) && p' == p.(history := p.history + [z])
    case Start(id, orders) =>
      && p.history != [] && id !in p.transfers
      && var g := |p.history| - 1;
      && p.history[g].apex.soa.Some? && OrdersFit(orders, Contents(p.history[g].tree))
      && p' == p.(transfers := p.transfers[id := Outgoing(g, orders, 0, Some(Fresh(p.history[g].origin)))])
    case Send(id) =>
      && id in p.transfers
      && var x := p.transfers[id];
      && x.gen < |p.history| && p.history[x.gen].apex.soa.Some? && x.sent < |MessagesOf(p, x)| && x.received.Some?
      && p' == p.(transfers := p.transfers[id := x.(sent := x.sent + 1, received := InsertAll(x.received.value, MessagesOf(p, x)[x.sent]))])
  }

  ghost predicate Run(ps: seq<Primary>, es: seq<Event>) {
    && |ps| == |es| + 1 && ps[0] == Primary([], map[])
    && forall i :: 0 <= i < |es| ==> Step(ps[i], es[i], ps[i + 1])
  }

  ghost predicate InFlight(p: Primary, x: Outgoing) {
    && x.gen < |p.history| && p.history[x.gen].apex.soa.Some?
    && OrdersFit(x.orders, Contents(p.history[x.gen].tree))
    && x.sent <= |MessagesOf(p, x)|
    && x.received == InsertAll(Fresh(p.history[x.gen].origin), Flatten(MessagesOf(p, x)[..x.sent]))
  }

  ghost predicate PrimaryInvariant(p: Primary) {
    && (forall i :: 0 <= i < |p.history| ==> Built(p.history[i]))
    && forall id :: id in p.transfers ==> InFlight(p, p.transfers[id])
  }

  lemma {:induction false} InsertAllAppend(z: ZoneData, a: seq<RR>, b: seq<RR>)
    ensures InsertAll(z, a + b) == if InsertAll(z, a).None? then None else InsertAll(InsertAll(z, a).value, b)
    decreases |a|
  {
    if a == [] {
      assert a + b == b;
    } else {
      assert (a + b)[0] == a[0] && (a + b)[1..] == a[1..] + b;
      if Inserted(z, a[0]).Some? {
        InsertAllAppend(Inserted(z, a[0]).value, a[1..], b);
      }
    }
  }

  lemma NextMessage(f: ZoneData, ms: seq<seq<RR>>, k: nat)
    requires k < |ms| && InsertAll(f, Flatten(ms[..k])).Some?
    ensures InsertAll(f, Flatten(ms[..k + 1])) == InsertAll(InsertAll(f, Flatten(ms[..k])).value, ms[k])
  {
    FlattenThree(ms[..k], ms[k], []);
    assert ms[..k + 1] == ms[..k] + [ms[k]] + [];
    assert Flatten(ms[..k]) + ms[k] + [] == Flatten(ms[..k]) + ms[k];
    InsertAllAppend(f, Flatten(ms[..k]), ms[k]);
  }

  lemma SendKeeps(p: Primary, x: Outgoing)
    requires InFlight(p, x) && x.sent < |MessagesOf(p, x)| && x.received.Some?
    ensures InFlight(p, x.(sent := x.sent + 1, received := InsertAll(x.received.value, MessagesOf(p, x)[x.sent])))
  {
    NextMessage(Fresh(p.history[x.gen].origin), MessagesOf(p, x), x.sent);
  }

  lemma InFlightFrame(p: Primary, p': Primary, x: Outgoing)
    requires InFlight(p, x) && p.history <= p'.history
    ensures InFlight(p', x)
  {
    assert p'.history[x.gen] == p.history[x.gen];
    assert MessagesOf(p', x) == MessagesOf(p, x);
  }

  lemma SetDataKeeps(p: Primary, z: ZoneData, p': Primary)
    requires PrimaryInvariant(p) && Step(p, SetData(z), p')
    ensures PrimaryInvariant(p')
  {
    forall id | id in p'.transfers ensures InFlight(p', p'.transfers[id]) {
      InFlightFrame(p, p', p.transfers[id]);
    }
  }

  lemma StartKeeps(p: Primary, id: nat, orders: Orders, p': Primary)
    requires PrimaryInvariant(p) && Step(p, Start(id, orders), p')
    ensures PrimaryInvariant(p')
  {
    NewTransferInFlight(p', p'.transfers[id]);
    forall j | j in p'.transfers && j != id ensures InFlight(p', p'.transfers[j]) {
      InFlightFrame(p, p', p.transfers[j]);
    }
  }

  lemma SendStepKeeps(p: Primary, id: nat, p': Primary)
    requires PrimaryInvariant(p) && Step(p, Send(id), p')
    ensures PrimaryInvariant(p')
  {
    assert InFlight(p, p.transfers[id]);
    SendKeeps(p, p.transfers[id]);
    InFlightFrame(p, p', p'.transfers[id]);
    forall j | j in p'.transfers && j != id ensures InFlight(p', p'.transfers[j]) {
      InFlightFrame(p, p', p.transfers[j]);
    }
  }

  lemma StepKeepsInvariant(p: Primary, e: Event, p': Primary)
    requires PrimaryInvariant(p) && Step(p, e, p')
    ensures PrimaryInvariant(p')
  {
    match e
    case SetData(z) => SetDataKeeps(p, z, p');
    case Start(id, orders) => StartKeeps(p, id, orders, p');
    case Send(id) => SendStepKeeps(p, id, p');
  }

  lemma NewTransferInFlight(p: Primary, x: Outgoing)
    requires x.gen < |p.history| && p.history[x.gen].apex.soa.Some? && OrdersFit(x.orders, Contents(p.history[x.gen].tree))
    requires x.sent == 0 && x.received == Some(Fresh(p.history[x.gen].origin))
    ensures InFlight(p, x)
  {
    assert MessagesOf(p, x)[..0] == [];
  }

  lemma {:induction false} RunKeepsInvariant(ps: seq<Primary>, es: seq<Event>)
    requires Run(ps, es)
    ensures PrimaryInvariant(ps[|es|])
    decreases |es|
  {
    if es != [] {
      var n := |es| - 1;
      RunKeepsInvariant(ps[..n + 1], es[..n]);
      StepKeepsInvariant(ps[n], es[n], ps[n + 1]);
    }
  }

  /**
   * However the zone is replaced while transfers run, a receiver that has got the whole stream holds exactly one
   * generation of the primary, and the stream opens and closes with that generation's SOA.
   */
  lemma CompleteTransferIsOneGeneration(ps: seq<Primary>, es: seq<Event>, id: nat)
    requires Run(ps, es) && id in ps[|es|].transfers
    requires var p := ps[|es|]; var x := p.transfers[id];
      x.gen < |p.history| && p.history[x.gen].apex.soa.Some? && x.sent == |MessagesOf(p, x)|
    ensures var p := ps[|es|]; var x := p.transfers[id]; var g := p.history[x.gen]; var ms := MessagesOf(p, x);
      && x.received.Some? && SameZone(x.received.value, g)
      && ms[0] != [] && ms[0][0] == g.apex.soa.value && ms[|ms| - 1] == [g.apex.soa.value]
  {
    RunKeepsInvariant(ps, es);
    var p := ps[|es|];
    var x := p.transfers[id];
    assert InFlight(p, x);
    var ms := MessagesOf(p, x);
    assert ms[..x.sent] == ms;
    StreamIsMessages(p.history[x.gen], 0, x.orders);
    TransferRebuilds(p.history[x.gen], x.orders);
  }

  // ----- transferring in -----

  /** What one primary delivers: nothing, or records and then either the end of the zone or an error. */
  datatype Attempt = Unreachable | Sends(rrs: seq<RR>, complete: bool)

  /** The records that `Insert` takes before the first one it refuses. */
  function Accepted(rrs: seq<RR>, origin: Name): seq<RR> {
    if rrs == [] || PlaceOf(origin, rrs[0]) == Refused then [] else [rrs[0]] + Accepted(rrs[1..], origin)
  }

  predicate Succeeds(a: Attempt, origin: Name) {
    a.Sends? && a.complete && |Accepted(a.rrs, origin)| == |a.rrs|
  }

  /** The records left behind in the new zone by attempts that failed. */
  function Leftover(attempts: seq<Attempt>, origin: Name): seq<RR> {
    if attempts == [] then []
    else Leftover(attempts[..|attempts| - 1], origin) +
         var a := attempts[|attempts| - 1];
         if a.Sends? then Accepted(a.rrs, origin) else []
  }

  lemma LeftoverStep(attempts: seq<Attempt>, origin: Name, i: nat)
    requires i < |attempts|
    ensures Leftover(attempts[..i + 1], origin) ==
      if attempts[i].Sends? then Leftover(attempts[..i], origin) + Accepted(attempts[i].rrs, origin) else Leftover(attempts[..i], origin)
  {
    assert attempts[..i + 1][..i] == attempts[..i];
    assert Leftover(attempts[..i], origin) + [] == Leftover(attempts[..i], origin);
  }

  ghost predicate FirstSuccess(attempts: seq<Attempt>, origin: Name, k: nat) {
    k < |attempts| && Succeeds(attempts[k], origin) && forall i :: 0 <= i < k ==> !Succeeds(attempts[i], origin)
  }

  lemma {:induction false} AcceptedPrefix(rrs: seq<RR>, origin: Name)
    ensures Accepted(rrs, origin) <= rrs
    ensures |Accepted(rrs, origin)| == |rrs| ==> Accepted(rrs, origin) == rrs
  {
    if rrs != [] && PlaceOf(origin, rrs[0]) != Refused {
      AcceptedPrefix(rrs[1..], origin);
      assert rrs == [rrs[0]] + rrs[1..];
    }
  }

  /** The inner loops of `TransferIn`: insert the records of one primary until one is refused. */
  method InsertRecords(z1: Zone, rrs: seq<RR>) returns (ok: bool)
    requires z1.Valid()
    modifies z1
    ensures z1.Valid() && InsertAll(old(z1.Data()), Accepted(rrs, z1.origin)) == Some(z1.Data())
    ensures ok == (|Accepted(rrs, z1.origin)| == |rrs|)
  {
    var i := 0;
    while i < |rrs|
      invariant 0 <= i <= |rrs| && z1.Valid()
      invariant InsertAll(old(z1.Data()), Accepted(rrs, z1.origin)) == InsertAll(z1.Data(), Accepted(rrs[i..], z1.origin))
      invariant |Accepted(rrs, z1.origin)| == i + |Accepted(rrs[i..], z1.origin)|
    {
      assert rrs[i..][1..] == rrs[i + 1..];
      ghost var before := z1.Data();
      var inserted := z1.Insert(rrs[i]);
      if !inserted {
        return false;
      }
      assert z1.Data() == Inserted(before, rrs[i]).value;
      i := i + 1;
    }
    return true;
  }

  /** The first `i` attempts have failed and left `d` in the new zone. */
  ghost predicate LeftBy(attempts: seq<Attempt>, origin: Name, i: nat, d: ZoneData) {
    i <= |attempts| && InsertAll(Fresh(origin), Leftover(attempts[..i], origin)) == Some(d)
  }

  /** `d` is what the failed attempts before `k` left behind, followed by all that attempt `k` has sent. */
  ghost predicate FilledBy(attempts: seq<Attempt>, origin: Name, k: nat, d: ZoneData) {
    && k < |attempts| && attempts[k].Sends?
    && InsertAll(Fresh(origin), Leftover(attempts[..k], origin) + attempts[k].rrs) == Some(d)
  }

  lemma AfterAttempt(attempts: seq<Attempt>, origin: Name, i: nat, before: ZoneData, after: ZoneData)
    requires i < |attempts| && attempts[i].Sends? && LeftBy(attempts, origin, i, before)
    requires InsertAll(before, Accepted(attempts[i].rrs, origin)) == Some(after)
    ensures LeftBy(attempts, origin, i + 1, after)
    ensures |Accepted(attempts[i].rrs, origin)| == |attempts[i].rrs| ==> FilledBy(attempts, origin, i, after)
  {
    LeftoverStep(attempts, origin, i);
    InsertAllAppend(Fresh(origin), Leftover(attempts[..i], origin), Accepted(attempts[i].rrs, origin));
    AcceptedPrefix(attempts[i].rrs, origin);
  }

  /** One turn of the loop of `TransferIn`, secondary.go:20-56: what primary `i` delivers goes into the new zone. */
  method TryPrimary(z1: Zone, attempts: seq<Attempt>, i: nat) returns (ok: bool)
    requires z1.Valid() && i < |attempts| && LeftBy(attempts, z1.origin, i, z1.Data())
    modifies z1
    ensures z1.Valid() && LeftBy(attempts, z1.origin, i + 1, z1.Data())
    ensures ok == Succeeds(attempts[i], z1.origin)
    ensures ok ==> FilledBy(attempts, z1.origin, i, z1.Data())
  {
    if attempts[i].Unreachable? {
      LeftoverStep(attempts, z1.origin, i);
      return false;
    }
    ghost var before := z1.Data();
    var all := InsertRecords(z1, attempts[i].rrs);
    AfterAttempt(attempts, z1.origin, i, before, z1.Data());
    return all && attempts[i].complete;
  }

  /** `Zone.TransferIn`: one new zone is filled by all attempts in turn and goes live after the first that succeeds. */
  method TransferIn(z: Zone, attempts: seq<Attempt>) returns (ok: bool)
    requires z.Valid()
    modifies z
    ensures z.Valid()
    ensures ok == (attempts == [] || exists k: nat :: FirstSuccess(attempts, z.origin, k))
    ensures !ok || attempts == [] ==> z.Data() == old(z.Data()) && z.expired == old(z.expired)
    ensures forall k: nat :: FirstSuccess(attempts, z.origin, k) ==> FilledBy(attempts, z.origin, k, z.Data()) && !z.expired
  {
    if attempts == [] {
      return true;
    }
    var z1 := new Zone(z.origin);
    var i := 0;
    while i < |attempts|
      invariant 0 <= i <= |attempts| && fresh(z1) && z1.Valid() && z1.origin == z.origin
      invariant z.Valid() && z.Data() == old(z.Data()) && z.expired == old(z.expired)
      invariant forall j :: 0 <= j < i ==> !Succeeds(attempts[j], z.origin)
      invariant LeftBy(attempts, z.origin, i, z1.Data())
    {
      var done := TryPrimary(z1, attempts, i);
      if done {
        assert FirstSuccess(attempts, z.origin, i);
        z.SetData(z1.apex, z1.tree);
        return true;
      }
      i := i + 1;
    }
    return false;
  }

  /**
   * The zone that goes live is the one the successful primary sent exactly when the failed attempts left nothing but
   * SOA records behind, and the successful one brought a SOA of its own if they did.
   */
  lemma LeftoversHarmlessIff(origin: Name, left: seq<RR>, full: seq<RR>)
    requires InsertAll(Fresh(origin), left + full).Some?
    ensures InsertAll(Fresh(origin), full).Some?
    ensures SameZone(InsertAll(Fresh(origin), left + full).value, InsertAll(Fresh(origin), full).value) <==>
      (forall rr :: rr in left ==> PlaceOf(origin, rr) == InSoa) && (left == [] || Select(full, origin, InSoa) != [])
  {
    var f := Fresh(origin);
    InsertAllSucceeds(f, left + full);
    InsertAllSucceeds(f, full);
    SelectAppend(left, full, origin, Refused);
    var mixed, clean := InsertAll(f, left + full).value, InsertAll(f, full).value;
    if SameZone(mixed, clean) {
      forall rr | rr in left
        ensures PlaceOf(origin, rr) == InSoa
      {
        LeftoverShows(origin, left, full, rr);
      }
      if left != [] { OnlySoaShows(origin, left, full); }
    }
    if (forall rr :: rr in left ==> PlaceOf(origin, rr) == InSoa) && (left == [] || Select(full, origin, InSoa) != []) {
      SoaLeftoversVanish(origin, left, full);
    }
  }

  /**
   * The first primary breaks off after its SOA and one address, the second sends a zone that is nothing but a SOA: the zone
   * `d` that `TransferIn` installs is not the one that was sent.
   */
  lemma LeftoverGoesLive(origin: Name, owner: Name, soa: RR) returns (attempts: seq<Attempt>, d: ZoneData)
    requires soa.rtype == TYPE_SOA
    ensures attempts == [Sends([soa, RR(owner, TYPE_A, 60, Opaque([1]))], false), Sends([soa, soa], true)]
    ensures FirstSuccess(attempts, origin, 1) && FilledBy(attempts, origin, 1, d)
    ensures InsertAll(Fresh(origin), attempts[1].rrs).Some? && !SameZone(d, InsertAll(Fresh(origin), attempts[1].rrs).value)
  {
    var a := RR(owner, TYPE_A, 60, Opaque([1]));
    var left, full := [soa, a], [soa, soa];
    attempts := [Sends(left, false), Sends(full, true)];
    TwoAccepted(origin, soa, a);
    TwoAccepted(origin, soa, soa);
    LeftoverStep(attempts, origin, 0);
    assert Leftover(attempts[..1], origin) == left;
    SelectAppend(left, full, origin, Refused);
    InsertAllSucceeds(Fresh(origin), left + full);
    d := InsertAll(Fresh(origin), left + full).value;
    assert a in left && PlaceOf(origin, a) == InTree;
    LeftoversHarmlessIff(origin, left, full);
  }

  lemma TwoAccepted(origin: Name, a: RR, b: RR)
    requires PlaceOf(origin, a) != Refused && PlaceOf(origin, b) != Refused
    ensures Accepted([a, b], origin) == [a, b] && Select([a, b], origin, Refused) == []
  {
    assert [a, b][1..] == [b] && [b][1..] == [];
    assert Accepted([b], origin) == [b] && Select([b], origin, Refused) == [];
  }

  lemma {:induction false} SelectHas(rs: seq<RR>, origin: Name, rr: RR)
    requires rr in rs
    ensures rr in Select(rs, origin, PlaceOf(origin, rr))
    ensures PlaceOf(origin, rr) == InTree ==> rr in Collect(rs, origin, rr.owner, rr.rtype)
  {
    if rs[0] != rr {
      assert rr in rs[1..];
      SelectHas(rs[1..], origin, rr);
    }
  }

  lemma LeftoverShows(origin: Name, left: seq<RR>, full: seq<RR>, rr: RR)
    requires InsertAll(Fresh(origin), left + full).Some? && InsertAll(Fresh(origin), full).Some? && rr in left
    requires SameZone(InsertAll(Fresh(origin), left + full).value, InsertAll(Fresh(origin), full).value)
    ensures PlaceOf(origin, rr) == InSoa
  {
    var p := PlaceOf(origin, rr);
    NothingRefused(origin, left, full, rr);
    if p == InTree {
      TreeLeftoverShows(origin, left, full, rr);
    } else if p != InSoa {
      ApexLeftoverShows(origin, left, full, rr);
    }
  }

  lemma NothingRefused(origin: Name, left: seq<RR>, full: seq<RR>, rr: RR)
    requires InsertAll(Fresh(origin), left + full).Some? && rr in left
    ensures PlaceOf(origin, rr) != Refused
  {
    SelectHas(left, origin, rr);
    InsertAllSucceeds(Fresh(origin), left + full);
    SelectAppend(left, full, origin, Refused);
  }

  lemma TreeLeftoverShows(origin: Name, left: seq<RR>, full: seq<RR>, rr: RR)
    requires InsertAll(Fresh(origin), left + full).Some? && InsertAll(Fresh(origin), full).Some?
    requires rr in left && PlaceOf(origin, rr) == InTree
    ensures Contents(InsertAll(Fresh(origin), left + full).value.tree) != Contents(InsertAll(Fresh(origin), full).value.tree)
  {
    var f := Fresh(origin);
    SelectHas(left, origin, rr);
    InsertAllCollects(f, left + full, rr.owner, rr.rtype);
    InsertAllCollects(f, full, rr.owner, rr.rtype);
    CollectAppend(left, full, origin, rr.owner, rr.rtype);
    assert |Collect(left, origin, rr.owner, rr.rtype)| > 0;
    assert At(InsertAll(f, left + full).value, rr.owner, rr.rtype) != At(InsertAll(f, full).value, rr.owner, rr.rtype);
  }

  lemma ApexLeftoverShows(origin: Name, left: seq<RR>, full: seq<RR>, rr: RR)
    requires InsertAll(Fresh(origin), left + full).Some? && InsertAll(Fresh(origin), full).Some? && rr in left
    requires PlaceOf(origin, rr) == InNs || PlaceOf(origin, rr) == InSigSoa || PlaceOf(origin, rr) == InSigNs
    ensures InsertAll(Fresh(origin), left + full).value.apex != InsertAll(Fresh(origin), full).value.apex
  {
    var f, p := Fresh(origin), PlaceOf(origin, rr);
    SelectHas(left, origin, rr);
    SelectAppend(left, full, origin, p);
    InsertAllApex(f, left + full);
    InsertAllApex(f, full);
    var a, b := InsertAll(f, left + full).value.apex, InsertAll(f, full).value.apex;
    assert a.ns == Select(left + full, origin, InNs) && b.ns == Select(full, origin, InNs);
    assert a.sigsoa == Select(left + full, origin, InSigSoa) && b.sigsoa == Select(full, origin, InSigSoa);
    assert a.signs == Select(left + full, origin, InSigNs) && b.signs == Select(full, origin, InSigNs);
    assert |Select(left + full, origin, p)| > |Select(full, origin, p)|;
  }

  lemma OnlySoaShows(origin: Name, left: seq<RR>, full: seq<RR>)
    requires InsertAll(Fresh(origin), left + full).Some? && InsertAll(Fresh(origin), full).Some?
    requires left != [] && forall rr :: rr in left ==> PlaceOf(origin, rr) == InSoa
    requires SameZone(InsertAll(Fresh(origin), left + full).value, InsertAll(Fresh(origin), full).value)
    ensures Select(full, origin, InSoa) != []
  {
    InsertAllApex(Fresh(origin), left + full);
    InsertAllApex(Fresh(origin), full);
    SelectAppend(left, full, origin, InSoa);
    SelectUniform(left, origin, InSoa, InSoa);
  }

  lemma SoaLeftoversVanish(origin: Name, left: seq<RR>, full: seq<RR>)
    requires InsertAll(Fresh(origin), left + full).Some? && InsertAll(Fresh(origin), full).Some?
    requires (forall rr :: rr in left ==> PlaceOf(origin, rr) == InSoa) && (left == [] || Select(full, origin, InSoa) != [])
    ensures SameZone(InsertAll(Fresh(origin), left + full).value, InsertAll(Fresh(origin), full).value)
  {
    var f := Fresh(origin);
    var a, b := InsertAll(f, left + full).value, InsertAll(f, full).value;
    InsertAllSucceeds(f, left + full);
    InsertAllSucceeds(f, full);
    forall n, t
      ensures At(a, n, t) == At(b, n, t)
    {
      InsertAllCollects(f, left + full, n, t);
      InsertAllCollects(f, full, n, t);
      CollectAppend(left, full, origin, n, t);
      CollectNone(left, origin, n, t);
    }
    InsertAllCollects(f, left + full, [], 0);
    InsertAllCollects(f, full, [], 0);
    SameRecordsSameContents(a, b);
    InsertAllApex(f, left + full);
    InsertAllApex(f, full);
    SoaLeftoversApex(origin, left, full);
  }

  lemma SoaLeftoversApex(origin: Name, left: seq<RR>, full: seq<RR>)
    requires (forall rr :: rr in left ==> PlaceOf(origin, rr) == InSoa) && (left == [] || Select(full, origin, InSoa) != [])
    ensures ApexAfter(Fresh(origin).apex, left + full, origin) == ApexAfter(Fresh(origin).apex, full, origin)
  {
    forall p: Place
      ensures Select(left + full, origin, p) == (if p == InSoa then left else []) + Select(full, origin, p)
    {
      SelectAppend(left, full, origin, p);
      SelectUniform(left, origin, InSoa, p);
    }
  }
}
