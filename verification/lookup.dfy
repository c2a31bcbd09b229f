/**
 * The decision part of `Zone.Lookup`: which node, if any, answers a query. `Walk` is the label loop with its tail;
 * `Resolution.Resolves` is what section 4.3.2 of RFC 1034 and section 3.3 of RFC 4592 ask for, stated without the loop.
 */
module Lookup {
  import opened Names
  import opened Records
  import opened ZoneTree
  import opened Options

  type Nodes = map<Name, Elem>

  datatype Outcome =
    | Referral(node: Name)      // a zone cut on the path
    | Redirect(node: Name)      // a DNAME above the query name
    | Found(node: Name)         // the query name itself is stored
    | Wild(node: Name)          // the wildcard that stands in for it
    | EmptyNonTerminal          // only longer names are stored
    | NoName

  // ----- the helpers of the loop -----

  /** The labels that `PrevLabel` finds in a name: the single dot of the root counts as one. */
  function Steps(q: Name): nat {
    if q == [] then 1 else |q|
  }

  /** `Zone.nameFromRight`: the origin and `i` more labels of `qname`; `shot` when `qname` has fewer labels. */
  method NameFromRight(origin: Name, qname: Name, i: nat) returns (parts: Name, shot: bool)
    ensures i == 0 ==> parts == origin && !shot
    ensures i > 0 ==> shot == (|origin| + i > Steps(qname))
    ensures i > 0 && !shot ==> parts == if qname == [] then [] else Tail(qname, |origin| + i)
    ensures shot ==> parts == qname
  {
    if i == 0 {
      return origin, false;
    }
    var n := Steps(qname);
    for j := 0 to |origin|
      invariant n == Steps(qname) - j && n >= 0
    {
      if n == 0 {
        return qname, true;
      }
      n := n - 1;
    }
    for j := 0 to i
      invariant n == Steps(qname) - |origin| - j && n >= 0
    {
      if n == 0 {
        return qname, true;
      }
      n := n - 1;
    }
    return qname[n..], false;
  }

  /** `replaceWithAsteriskLabel`: nothing for the root and for a single label. */
  function AsteriskLabel(n: Name): Option<Name> {
    if |n| <= 1 then None else Some([STAR] + n[1..])
  }

  // ----- what the loop looks for -----

  predicate IsRedirect(m: Nodes, q: Name, d: nat)
    requires d <= |q|
  {
    d < |q| && Tail(q, d) in m && OfType(m[Tail(q, d)], TYPE_DNAME) != []
  }

  predicate IsCut(m: Nodes, q: Name, qtype: RType, d: nat)
    requires d <= |q|
  {
    Tail(q, d) in m && OfType(m[Tail(q, d)], TYPE_NS) != [] && !(qtype == TYPE_DS && d == |q|)
  }

  predicate Stops(m: Nodes, q: Name, qtype: RType, d: nat)
    requires d <= |q|
  {
    IsRedirect(m, q, d) || IsCut(m, q, qtype, d)
  }

  /** How the walk ends at depth `d`, if it does. */
  function StopAt(m: Nodes, q: Name, qtype: RType, d: nat): Option<Outcome>
    requires d <= |q|
  {
    if !Stops(m, q, qtype, d) then None
    else if IsRedirect(m, q, d) then Some(Redirect(Tail(q, d))) else Some(Referral(Tail(q, d)))
  }

  /** The stored wildcard beside a missing name. */
  function StarBeside(m: Nodes, q: Name, d: nat): Option<Name>
    requires d <= |q|
  {
    var star := AsteriskLabel(Tail(q, d));
    if Tail(q, d) !in m && star.Some? && star.value in m then star else None
  }

  /** The wildcard the loop holds after it has looked at the depths `lo` to `d`: the deepest one seen next to a missing name. */
  function WildSeen(m: Nodes, q: Name, lo: nat, d: int): Option<Name>
    requires d <= |q|
    decreases d
  {
    if d < lo then None
    else if StarBeside(m, q, d).Some? then StarBeside(m, q, d)
    else WildSeen(m, q, lo, d - 1)
  }

  ghost predicate NoStopBefore(m: Nodes, origin: Name, q: Name, qtype: RType, d: nat) {
    forall e: nat :: |origin| <= e < d && e <= |q| ==> !Stops(m, q, qtype, e)
  }

  /** What the loop and its tail decide, for any tree. */
  ghost predicate Decides(m: Nodes, origin: Name, q: Name, qtype: RType, o: Outcome) {
    match o
    case Redirect(n) => exists d: nat :: IsFirstStop(m, origin, q, qtype, d) && n == Tail(q, d) && IsRedirect(m, q, d)
    case Referral(n) => exists d: nat :: IsFirstStop(m, origin, q, qtype, d) && n == Tail(q, d) && !IsRedirect(m, q, d)
    case Found(n) => NoStopBefore(m, origin, q, qtype, |q| + 1) && n == q && q in m
    case _ =>
      && NoStopBefore(m, origin, q, qtype, |q| + 1)
      && q !in m
      && match WildSeen(m, q, |origin|, |q|)
         case Some(w) => o == Wild(w)
         case None => o == if HasAfter(m, q) then EmptyNonTerminal else NoName
  }

  ghost predicate IsFirstStop(m: Nodes, origin: Name, q: Name, qtype: RType, d: nat) {
    |origin| <= d <= |q| && Stops(m, q, qtype, d) && NoStopBefore(m, origin, q, qtype, d)
  }

  /** The state of the loop when the depths before `d` are behind it. */
  ghost predicate Passed(m: Nodes, origin: Name, q: Name, qtype: RType, d: nat, found: bool, wild: Option<Name>) {
    && |origin| <= d <= |q| + 1
    && NoStopBefore(m, origin, q, qtype, d)
    && wild == WildSeen(m, q, |origin|, d - 1)
    && (d > |origin| ==> found == (Tail(q, d - 1) in m))
  }

  lemma PassDepth(m: Nodes, origin: Name, q: Name, qtype: RType, d: nat, wild: Option<Name>, found: bool)
    requires d <= |q| && Passed(m, origin, q, qtype, d, found, wild)
    ensures var star := StarBeside(m, q, d);
      !Stops(m, q, qtype, d) ==> Passed(m, origin, q, qtype, d + 1, Tail(q, d) in m, if star.Some? then star else wild)
  {
  }

  /** The root is looked at once more, to no effect. */
  lemma RootLookedAt(m: Nodes, origin: Name, qtype: RType, found: bool, wild: Option<Name>)
    requires origin == [] && Passed(m, origin, [], qtype, 1, found, wild)
    ensures !Stops(m, [], qtype, 0) && StarBeside(m, [], 0) == None && found == (Tail([], 0) in m)
  {
  }

  lemma PassedAll(m: Nodes, origin: Name, q: Name, qtype: RType, found: bool, wild: Option<Name>)
    requires |origin| <= |q| && Passed(m, origin, q, qtype, |q| + 1, found, wild)
    ensures NoStopBefore(m, origin, q, qtype, |q| + 1) && found == (q in m) && wild == WildSeen(m, q, |origin|, |q|)
  {
    assert Tail(q, |q|) == q;
  }

  /** Some stored name lies at or below `n`. */
  ghost predicate HasBelow(m: Nodes, n: Name) {
    exists x :: x in m && IsSub(n, x)
  }

  /** Some stored name lies at or below `n` and does not sort before it. */
  ghost predicate HasAfter(m: Nodes, n: Name) {
    exists x :: x in m && IsSub(n, x) && TreeCmp(n, x) <= 0
  }

  /** Only the root can have descendants that sort before it. */
  lemma AfterIsBelow(m: Nodes, n: Name)
    ensures HasAfter(m, n) ==> HasBelow(m, n)
    ensures n != [] ==> (HasAfter(m, n) <==> HasBelow(m, n))
  {
    if n != [] && HasBelow(m, n) {
      var x :| x in m && IsSub(n, x);
      TreeAncestorFirst(n, x);
    }
  }

  /** One look at the successor of `q` tells whether any stored name lies at or below `q`; at the root it tells only of those after it. */
  lemma SuccessorDecides(m: Nodes, q: Name, c: Option<(Name, Elem)>)
    requires IsCeil(m, q, c)
    ensures HasAfter(m, q) <==> c.Some? && IsSub(q, c.value.0)
    ensures q != [] ==> (HasBelow(m, q) <==> c.Some? && IsSub(q, c.value.0))
  {
    AfterIsBelow(m, q);
    if HasAfter(m, q) {
      var x :| x in m && IsSub(q, x) && TreeCmp(q, x) <= 0;
      TreeFlip(x, q);
      assert c.Some?;
      TreeConvex(q, c.value.0, x);
    }
  }

  /** One turn of the loop: look up `parts`; if it is missing look for the wildcard beside it, else test it for DNAME and NS. */
  method LookAt(t: Tree, parts: Name, qname: Name, qtype: RType, ghost d: nat) returns (found: bool, wild: Option<Name>, stop: Option<Outcome>)
    requires Ordered(t) && d <= |qname| && parts == Tail(qname, d)
    ensures found == (Tail(qname, d) in Contents(t))
    ensures wild == StarBeside(Contents(t), qname, d)
    ensures stop == StopAt(Contents(t), qname, qtype, d)
  {
    wild, stop := None, None;
    var elem := Get(t, parts);
    found := elem.Some?;
    if !found {
      var wildcard := AsteriskLabel(parts);
      if wildcard.Some? {
        var star := Get(t, wildcard.value);
        if star.Some? {
          wild := wildcard;
        }
      }
    } else if OfType(elem.value, TYPE_DNAME) != [] && IsSub(parts, qname) && qname != parts {
      stop := Some(Redirect(parts));
    } else if OfType(elem.value, TYPE_NS) != [] {
      if !(qtype == TYPE_DS && parts == qname) {
        stop := Some(Referral(parts));
      }
    }
  }

  /** The state of the loop before turn `i`. */
  ghost predicate Before(m: Nodes, origin: Name, q: Name, qtype: RType, i: nat, found: bool, wild: Option<Name>) {
    && |origin| + i <= Steps(q) + 1
    && Passed(m, origin, q, qtype, if |origin| + i <= |q| then |origin| + i else |q| + 1, found, wild)
  }

  lemma NextTurn(m: Nodes, origin: Name, q: Name, qtype: RType, i: nat, found: bool, wild: Option<Name>, d: nat, found': bool, star: Option<Name>,
                 stop: Option<Outcome>, wild': Option<Name>)
    requires IsSub(origin, q) && Before(m, origin, q, qtype, i, found, wild) && |origin| + i <= Steps(q)
    requires d == if |origin| + i <= |q| then |origin| + i else 0
    requires found' == (Tail(q, d) in m) && star == StarBeside(m, q, d) && stop == StopAt(m, q, qtype, d)
    requires wild' == if star.Some? then star else wild
    ensures stop.Some? ==> Decides(m, origin, q, qtype, stop.value)
    ensures stop.None? ==> Before(m, origin, q, qtype, i + 1, found', wild')
  {
    if |origin| + i > |q| {
      RootLookedAt(m, origin, qtype, found, wild);
    } else {
      PassDepth(m, origin, q, qtype, d, wild, found);
      if Stops(m, q, qtype, d) { StopDecides(m, origin, q, qtype, d); }
    }
  }

  lemma PartsAt(origin: Name, q: Name, i: nat, parts: Name)
    requires IsSub(origin, q) && |origin| + i <= Steps(q)
    requires parts == if i == 0 then origin else if q == [] then [] else Tail(q, |origin| + i)
    ensures parts == Tail(q, if |origin| + i <= |q| then |origin| + i else 0)
  {
  }

  method Parts(origin: Name, qname: Name, i: nat) returns (parts: Name, shot: bool)
    requires IsSub(origin, qname)
    ensures shot <==> |origin| + i > Steps(qname)
    ensures !shot ==> parts == Tail(qname, if |origin| + i <= |qname| then |origin| + i else 0)
  {
    parts, shot := NameFromRight(origin, qname, i);
    if !shot { PartsAt(origin, qname, i, parts); }
  }

  /** One turn of the loop with everything that is known before and after it. */
  method Turn(origin: Name, t: Tree, qname: Name, qtype: RType, i: nat, found: bool, wild: Option<Name>)
    returns (shot: bool, stop: Option<Outcome>, found': bool, wild': Option<Name>)
    requires Ordered(t) && IsSub(origin, qname) && Before(Contents(t), origin, qname, qtype, i, found, wild)
    ensures stop.Some? ==> Decides(Contents(t), origin, qname, qtype, stop.value)
    ensures shot ==> stop.None? && found' == found && wild' == wild && |origin| + i > Steps(qname)
    ensures !shot && stop.None? ==> Before(Contents(t), origin, qname, qtype, i + 1, found', wild')
  {
    var parts: Name;
    stop, found', wild' := None, found, wild;
    parts, shot := Parts(origin, qname, i);
    if shot {
      return;
    }
    stop, found', wild' := Look(origin, t, parts, qname, qtype, i, found, wild);
  }

  method Look(origin: Name, t: Tree, parts: Name, qname: Name, qtype: RType, ghost i: nat, ghost found: bool, wild: Option<Name>)
    returns (stop: Option<Outcome>, found': bool, wild': Option<Name>)
    requires Ordered(t) && IsSub(origin, qname) && Before(Contents(t), origin, qname, qtype, i, found, wild)
    requires |origin| + i <= Steps(qname) && parts == Tail(qname, if |origin| + i <= |qname| then |origin| + i else 0)
    ensures stop.Some? ==> Decides(Contents(t), origin, qname, qtype, stop.value)
    ensures stop.None? ==> Before(Contents(t), origin, qname, qtype, i + 1, found', wild')
  {
    ghost var d := if |origin| + i <= |qname| then |origin| + i else 0;
    var star: Option<Name>;
    found', star, stop := LookAt(t, parts, qname, qtype, d);
    wild' := if star.Some? then star else wild;
    NextTurn(Contents(t), origin, qname, qtype, i, found, wild, d, found', star, stop, wild');
  }

  /** The label loop of `Zone.Lookup`, lookup.go:86-169: the first stop on the path, or what was seen on the way down. */
  method Descend(origin: Name, t: Tree, qname: Name, qtype: RType) returns (stop: Option<Outcome>, found: bool, wild: Option<Name>)
    requires Ordered(t) && IsSub(origin, qname)
    ensures stop.Some? ==> Decides(Contents(t), origin, qname, qtype, stop.value)
    ensures stop.None? ==> NoStopBefore(Contents(t), origin, qname, qtype, |qname| + 1)
    ensures stop.None? ==> found == (qname in Contents(t)) && wild == WildSeen(Contents(t), qname, |origin|, |qname|)
  {
    var i := 0;
    stop, found, wild := None, false, None;
    while true
      invariant stop.None? && Before(Contents(t), origin, qname, qtype, i, found, wild)
      decreases Steps(qname) + 1 - i
    {
      var shot: bool;
      shot, stop, found, wild := Turn(origin, t, qname, qtype, i, found, wild);
      if shot {
        PassedAll(Contents(t), origin, qname, qtype, found, wild);
        return;
      }
      if stop.Some? {
        return;
      }
      i := i + 1;
    }
  }

  lemma StopDecides(m: Nodes, origin: Name, q: Name, qtype: RType, d: nat)
    requires |origin| <= d <= |q| && NoStopBefore(m, origin, q, qtype, d) && Stops(m, q, qtype, d)
    ensures Decides(m, origin, q, qtype, StopAt(m, q, qtype, d).value)
  {
    assert IsFirstStop(m, origin, q, qtype, d);
  }

  /** `Zone.Lookup`, lookup.go:86-252: walk down the labels of `qname`, then fall back to the wildcard or to denial. */
  method Walk(origin: Name, t: Tree, qname: Name, qtype: RType) returns (o: Outcome)
    requires Ordered(t) && IsSub(origin, qname)
    ensures Decides(Contents(t), origin, qname, qtype, o)
  {
    var stop, found, wild := Descend(origin, t, qname, qtype);
    if stop.Some? {
      return stop.value;
    }
    if found {
      return Found(qname);
    }
    if wild.Some? {
      return Wild(wild.value);
    }
    var x := Next(t, qname);
    SuccessorDecides(Contents(t), qname, x);
    if x.Some? && IsSub(qname, x.value.0) {
      return EmptyNonTerminal;
    }
    return NoName;
  }
}
