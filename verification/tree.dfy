/**
 * The left-leaning red-black tree that holds a zone's names. `Contents` is what the tree means: a finite map from
 * names to records. Searching, predecessor, successor and insertion are proved to mean the map operations.
 */
module ZoneTree {
  import opened Names
  import opened Records
  import opened Options

  datatype Tree = Nil | Node(left: Tree, key: Name, elem: Elem, right: Tree, red: bool)

  function Contents(t: Tree): map<Name, Elem> {
    match t
    case Nil => map[]
    case Node(l, k, e, r, _) => (Contents(l) + Contents(r))[k := e]
  }

  ghost predicate AllBelow(t: Tree, k: Name) {
    forall x :: x in Contents(t) ==> TreeCmp(x, k) < 0
  }

  ghost predicate AllAbove(t: Tree, k: Name) {
    forall x :: x in Contents(t) ==> TreeCmp(k, x) < 0
  }

  ghost predicate Ordered(t: Tree) {
    match t
    case Nil => true
    case Node(l, k, _, r, _) => Ordered(l) && Ordered(r) && AllBelow(l, k) && AllAbove(r, k)
  }

  /** In an ordered tree the two subtrees and the key have no name in common. */
  lemma Disjoint(t: Tree, x: Name)
    requires t.Node? && Ordered(t)
    ensures t.key !in Contents(t.left) && t.key !in Contents(t.right)
    ensures x in Contents(t.left) ==> x !in Contents(t.right) && Contents(t)[x] == Contents(t.left)[x]
    ensures x in Contents(t.right) ==> x !in Contents(t.left) && Contents(t)[x] == Contents(t.right)[x]
  {
    TreeEqual(t.key, t.key);
    TreeFlip(x, t.key);
  }

  // ----- searching -----

  /** `Tree.Search`. */
  function Search(t: Tree, q: Name): Option<Elem> {
    match t
    case Nil => None
    case Node(l, k, e, r, _) =>
      var c := TreeCmp(q, k);
      if c == 0 then Some(e) else if c < 0 then Search(l, q) else Search(r, q)
  }

  lemma {:induction false} SearchIsLookup(t: Tree, q: Name)
    requires Ordered(t)
    ensures Search(t, q) == if q in Contents(t) then Some(Contents(t)[q]) else None
  {
    if t.Node? {
      TreeEqual(q, t.key);
      TreeFlip(q, t.key);
      SearchIsLookup(t.left, q);
      SearchIsLookup(t.right, q);
      assert q in Contents(t.left) ==> TreeCmp(q, t.key) < 0;
      assert q in Contents(t.right) ==> TreeCmp(t.key, q) < 0;
    }
  }

  /** `Tree.Prev`: the greatest stored name not after `q`. */
  function Floor(t: Tree, q: Name): Option<(Name, Elem)> {
    match t
    case Nil => None
    case Node(l, k, e, r, _) =>
      var c := TreeCmp(q, k);
      if c == 0 then Some((k, e))
      else if c < 0 then Floor(l, q)
      else if Floor(r, q).Some? then Floor(r, q) else Some((k, e))
  }

  /** `Tree.Next`: the least stored name not before `q`. */
  function Ceil(t: Tree, q: Name): Option<(Name, Elem)> {
    match t
    case Nil => None
    case Node(l, k, e, r, _) =>
      var c := TreeCmp(q, k);
      if c == 0 then Some((k, e))
      else if c > 0 then Ceil(r, q)
      else if Ceil(l, q).Some? then Ceil(l, q) else Some((k, e))
  }

  ghost predicate IsFloor(m: map<Name, Elem>, q: Name, f: Option<(Name, Elem)>) {
    match f
    case None => forall x :: x in m ==> TreeCmp(q, x) < 0
    case Some((k, e)) => k in m && m[k] == e && TreeCmp(k, q) <= 0 && forall x :: x in m && TreeCmp(x, q) <= 0 ==> TreeCmp(x, k) <= 0
  }

  ghost predicate IsCeil(m: map<Name, Elem>, q: Name, f: Option<(Name, Elem)>) {
    match f
    case None => forall x :: x in m ==> TreeCmp(x, q) < 0
    case Some((k, e)) => k in m && m[k] == e && TreeCmp(q, k) <= 0 && forall x :: x in m && TreeCmp(q, x) <= 0 ==> TreeCmp(k, x) <= 0
  }

  lemma {:induction false} FloorIsPredecessor(t: Tree, q: Name)
    requires Ordered(t)
    ensures IsFloor(Contents(t), q, Floor(t, q))
  {
    if t.Node? {
      var k := t.key;
      TreeEqual(q, k);
      FloorIsPredecessor(t.left, q);
      FloorIsPredecessor(t.right, q);
      var f := Floor(t, q);
      TreeFlip(q, k);
      if f.Some? { Disjoint(t, f.value.0); }
      forall x | x in Contents(t)
        ensures if f.None? then TreeCmp(q, x) < 0 else TreeCmp(x, q) <= 0 ==> TreeCmp(x, f.value.0) <= 0
      {
        FloorStep(t, q, x);
      }
    }
  }

  lemma FloorStep(t: Tree, q: Name, x: Name)
    requires t.Node? && Ordered(t) && x in Contents(t)
    requires IsFloor(Contents(t.left), q, Floor(t.left, q)) && IsFloor(Contents(t.right), q, Floor(t.right, q))
    ensures var f := Floor(t, q); if f.None? then TreeCmp(q, x) < 0 else TreeCmp(x, q) <= 0 ==> TreeCmp(x, f.value.0) <= 0
  {
    var k := t.key;
    TreeEqual(q, k);
    TreeEqual(x, k);
    TreeFlip(q, k);
    TreeFlip(x, q);
    if x == k || x in Contents(t.right) {
      if TreeCmp(q, k) < 0 && x != k { TreeTransitive(q, k, x); }
    } else {
      assert x in Contents(t.left) && TreeCmp(x, k) < 0;
      var f := Floor(t.right, q);
      if TreeCmp(q, k) > 0 && f.Some? { TreeTransitive(x, k, f.value.0); }
    }
  }

  lemma {:induction false} CeilIsSuccessor(t: Tree, q: Name)
    requires Ordered(t)
    ensures IsCeil(Contents(t), q, Ceil(t, q))
  {
    if t.Node? {
      TreeEqual(q, t.key);
      CeilIsSuccessor(t.left, q);
      CeilIsSuccessor(t.right, q);
      var f := Ceil(t, q);
      TreeFlip(q, t.key);
      if f.Some? { Disjoint(t, f.value.0); }
      forall x | x in Contents(t)
        ensures if f.None? then TreeCmp(x, q) < 0 else TreeCmp(q, x) <= 0 ==> TreeCmp(f.value.0, x) <= 0
      {
        CeilStep(t, q, x);
      }
    }
  }

  lemma CeilStep(t: Tree, q: Name, x: Name)
    requires t.Node? && Ordered(t) && x in Contents(t)
    requires IsCeil(Contents(t.left), q, Ceil(t.left, q)) && IsCeil(Contents(t.right), q, Ceil(t.right, q))
    ensures var f := Ceil(t, q); if f.None? then TreeCmp(x, q) < 0 else TreeCmp(q, x) <= 0 ==> TreeCmp(f.value.0, x) <= 0
  {
    var k := t.key;
    TreeEqual(q, k);
    TreeEqual(x, k);
    TreeFlip(q, k);
    TreeFlip(x, q);
    if x == k || x !in Contents(t.right) {
      if TreeCmp(q, k) > 0 && x != k { TreeTransitive(x, k, q); }
    } else {
      assert TreeCmp(k, x) < 0;
      var f := Ceil(t.left, q);
      if TreeCmp(q, k) < 0 && f.Some? { TreeTransitive(f.value.0, k, x); }
    }
  }

  /** The three queries as the zone engine uses them: what they mean for the contents, not how they descend. */
  method Get(t: Tree, q: Name) returns (e: Option<Elem>)
    requires Ordered(t)
    ensures e == if q in Contents(t) then Some(Contents(t)[q]) else None
  {
    SearchIsLookup(t, q);
    e := Search(t, q);
  }

  method Prev(t: Tree, q: Name) returns (f: Option<(Name, Elem)>)
    requires Ordered(t)
    ensures IsFloor(Contents(t), q, f)
  {
    FloorIsPredecessor(t, q);
    f := Floor(t, q);
  }

  method Next(t: Tree, q: Name) returns (f: Option<(Name, Elem)>)
    requires Ordered(t)
    ensures IsCeil(Contents(t), q, f)
  {
    CeilIsSuccessor(t, q);
    f := Ceil(t, q);
  }

  // ----- inserting -----

  predicate IsRed(t: Tree) {
    t.Node? && t.red
  }

  function RotateLeft(n: Tree): Tree
    requires n.Node? && n.right.Node?
  {
    var x := n.right;
    Node(Node(n.left, n.key, n.elem, x.left, true), x.key, x.elem, x.right, n.red)
  }

  function RotateRight(n: Tree): Tree
    requires n.Node? && n.left.Node?
  {
    var x := n.left;
    Node(x.left, x.key, x.elem, Node(x.right, n.key, n.elem, n.right, true), n.red)
  }

  function FlipColors(n: Tree): Tree
    requires n.Node? && n.left.Node? && n.right.Node?
  {
    n.(red := !n.red, left := n.left.(red := !n.left.red), right := n.right.(red := !n.right.red))
  }

  function LeanLeft(n: Tree): Tree
    requires n.Node?
  {
    if IsRed(n.right) && !IsRed(n.left) then RotateLeft(n) else n
  }

  function SplitPair(n: Tree): Tree
    requires n.Node?
  {
    if IsRed(n.left) && IsRed(n.left.left) then RotateRight(n) else n
  }

  function SplitFour(n: Tree): Tree
    requires n.Node?
  {
    if IsRed(n.left) && IsRed(n.right) then FlipColors(n) else n
  }

  /** `Node.insert` in the bottom-up 2-3 mode the package is compiled for. */
  function InsertAt(t: Tree, rr: RR): (r: Tree)
    ensures r.Node?
  {
    match t
    case Nil => Node(Nil, rr.owner, WithRecord(map[], rr), Nil, true)
    case Node(l, k, e, r, red) =>
      var c := TreeCmp(rr.owner, k);
      var n :=
        if c == 0 then Node(l, k, WithRecord(e, rr), r, red)
        else if c < 0 then Node(InsertAt(l, rr), k, e, r, red)
        else Node(l, k, e, InsertAt(r, rr), red);
      SplitFour(SplitPair(LeanLeft(n)))
  }

  /** `Tree.Insert`: insert and blacken the root. */
  function Insert(t: Tree, rr: RR): Tree {
    var n := InsertAt(t, rr);
    n.(red := false)
  }

  /** What insertion means for the map: the record joins the records of its owner and type. */
  function Added(m: map<Name, Elem>, rr: RR): map<Name, Elem> {
    m[rr.owner := WithRecord(if rr.owner in m then m[rr.owner] else map[], rr)]
  }

  lemma RotateLeftSame(n: Tree)
    requires n.Node? && n.right.Node? && Ordered(n)
    ensures Ordered(RotateLeft(n)) && Contents(RotateLeft(n)) == Contents(n)
  {
    var k, x := n.key, n.right;
    var lower := Node(n.left, k, n.elem, x.left, true);
    assert TreeCmp(k, x.key) < 0 by { assert x.key in Contents(x); }
    TreeEqual(k, x.key);
    forall y | y in Contents(lower)
      ensures TreeCmp(y, x.key) < 0
    {
      if y != k && y !in Contents(x.left) { TreeTransitive(y, k, x.key); }
    }
    forall y | y in Contents(x.left)
      ensures TreeCmp(k, y) < 0
    {
      assert y in Contents(x);
    }
    assert k !in Contents(x.right) by { TreeEqual(k, k); assert k in Contents(x.right) ==> k in Contents(x); }
    Reassociate(Contents(n.left), Contents(x.left), Contents(x.right), k, n.elem, x.key, x.elem);
  }

  lemma RotateRightSame(n: Tree)
    requires n.Node? && n.left.Node? && Ordered(n)
    ensures Ordered(RotateRight(n)) && Contents(RotateRight(n)) == Contents(n)
  {
    var k, x := n.key, n.left;
    var upper := Node(x.right, k, n.elem, n.right, true);
    assert TreeCmp(x.key, k) < 0 by { assert x.key in Contents(x); }
    TreeEqual(k, x.key);
    forall y | y in Contents(upper)
      ensures TreeCmp(x.key, y) < 0
    {
      if y != k && y in Contents(n.right) { TreeTransitive(x.key, k, y); }
    }
    forall y | y in Contents(x.right)
      ensures TreeCmp(y, k) < 0
    {
      assert y in Contents(x);
    }
    assert x.key !in Contents(n.right) by { TreeFlip(k, x.key); }
    Reassociate(Contents(x.left), Contents(x.right), Contents(n.right), x.key, x.elem, k, n.elem);
  }

  lemma Reassociate(a: map<Name, Elem>, b: map<Name, Elem>, c: map<Name, Elem>, k: Name, e: Elem, x: Name, f: Elem)
    requires k != x && k !in c
    ensures (a + (b + c)[x := f])[k := e] == ((a + b)[k := e] + c)[x := f]
  {
  }

  lemma FlipSame(n: Tree)
    requires n.Node? && n.left.Node? && n.right.Node? && Ordered(n)
    ensures Ordered(FlipColors(n)) && Contents(FlipColors(n)) == Contents(n)
  {
    assert Contents(FlipColors(n).left) == Contents(n.left);
    assert Contents(FlipColors(n).right) == Contents(n.right);
  }

  lemma RebalanceSame(n: Tree)
    requires n.Node? && Ordered(n)
    ensures Ordered(SplitFour(SplitPair(LeanLeft(n)))) && Contents(SplitFour(SplitPair(LeanLeft(n)))) == Contents(n)
  {
    if LeanLeft(n) != n { RotateLeftSame(n); }
    var a := LeanLeft(n);
    if IsRed(a.left) && IsRed(a.left.left) { RotateRightSame(a); }
    var b := SplitPair(a);
    if IsRed(b.left) && IsRed(b.right) { FlipSame(b); }
  }

  /** Insertion keeps the order and adds exactly the one record. */
  lemma {:induction false} InsertAtAdds(t: Tree, rr: RR)
    requires Ordered(t)
    ensures Ordered(InsertAt(t, rr)) && Contents(InsertAt(t, rr)) == Added(Contents(t), rr)
  {
    if t.Node? {
      var c := TreeCmp(rr.owner, t.key);
      if c == 0 {
        ReplaceElem(t, rr);
      } else if c < 0 {
        InsertAtAdds(t.left, rr);
        ReplaceLeft(t, InsertAt(t.left, rr), rr);
      } else {
        InsertAtAdds(t.right, rr);
        ReplaceRight(t, InsertAt(t.right, rr), rr);
      }
      var n := Hung(t, rr);
      assert Ordered(n) && Contents(n) == Added(Contents(t), rr);
      RebalanceSame(n);
      assert InsertAt(t, rr) == SplitFour(SplitPair(LeanLeft(n)));
    }
  }

  /** The node before the tree is rebalanced. */
  function Hung(t: Tree, rr: RR): Tree
    requires t.Node?
  {
    var c := TreeCmp(rr.owner, t.key);
    if c == 0 then t.(elem := WithRecord(t.elem, rr))
    else if c < 0 then t.(left := InsertAt(t.left, rr))
    else t.(right := InsertAt(t.right, rr))
  }

  lemma ReplaceElem(t: Tree, rr: RR)
    requires t.Node? && Ordered(t) && TreeCmp(rr.owner, t.key) == 0
    ensures Ordered(t.(elem := WithRecord(t.elem, rr))) && Contents(t.(elem := WithRecord(t.elem, rr))) == Added(Contents(t), rr)
  {
    TreeEqual(rr.owner, t.key);
  }

  lemma ReplaceLeft(t: Tree, l: Tree, rr: RR)
    requires t.Node? && Ordered(t) && Ordered(l) && Contents(l) == Added(Contents(t.left), rr) && TreeCmp(rr.owner, t.key) < 0
    ensures Ordered(t.(left := l)) && Contents(t.(left := l)) == Added(Contents(t), rr)
  {
    TreeEqual(rr.owner, t.key);
    TreeFlip(rr.owner, t.key);
    AddedLeft(Contents(t.left), Contents(t.right), t.key, t.elem, rr);
  }

  lemma ReplaceRight(t: Tree, r: Tree, rr: RR)
    requires t.Node? && Ordered(t) && Ordered(r) && Contents(r) == Added(Contents(t.right), rr) && TreeCmp(rr.owner, t.key) > 0
    ensures Ordered(t.(right := r)) && Contents(t.(right := r)) == Added(Contents(t), rr)
  {
    TreeEqual(rr.owner, t.key);
    TreeFlip(rr.owner, t.key);
    AddedRight(Contents(t.left), Contents(t.right), t.key, t.elem, rr);
  }

  lemma AddedLeft(l: map<Name, Elem>, r: map<Name, Elem>, k: Name, e: Elem, rr: RR)
    requires rr.owner != k && rr.owner !in r
    ensures (Added(l, rr) + r)[k := e] == Added((l + r)[k := e], rr)
  {
  }

  lemma AddedRight(l: map<Name, Elem>, r: map<Name, Elem>, k: Name, e: Elem, rr: RR)
    requires rr.owner != k && rr.owner !in l
    ensures (l + Added(r, rr))[k := e] == Added((l + r)[k := e], rr)
  {
  }

  lemma InsertAdds(t: Tree, rr: RR)
    requires Ordered(t)
    ensures Ordered(Insert(t, rr)) && Contents(Insert(t, rr)) == Added(Contents(t), rr)
  {
    InsertAtAdds(t, rr);
  }

  // ----- balance -----

  /** Black nodes on the leftmost path. */
  function BlackHeight(t: Tree): nat {
    match t
    case Nil => 0
    case Node(l, _, _, _, red) => BlackHeight(l) + if red then 0 else 1
  }

  /** Every path meets the same number of black nodes. */
  ghost predicate SameBlack(t: Tree) {
    t.Node? ==> SameBlack(t.left) && SameBlack(t.right) && BlackHeight(t.left) == BlackHeight(t.right)
  }

  /** Red links lean left and are never adjacent. */
  ghost predicate Leaning(t: Tree) {
    t.Node? ==> Leaning(t.left) && Leaning(t.right) && !IsRed(t.right) && !(t.red && IsRed(t.left))
  }

  ghost predicate Balanced(t: Tree) {
    SameBlack(t) && Leaning(t) && !IsRed(t)
  }

  /** Like `Leaning`, but the root may be one half of an adjacent red pair that the parent still has to split. */
  ghost predicate NearlyLeaning(t: Tree) {
    t.Node? && Leaning(t.left) && Leaning(t.right) && !IsRed(t.right)
  }

  ghost predicate Restored(n: Tree, r: Tree)
    requires n.Node?
  {
    SameBlack(r) && BlackHeight(r) == BlackHeight(n) && NearlyLeaning(r) && (!n.red ==> Leaning(r))
  }

  lemma RebalanceAfterLeft(n: Tree)
    requires n.Node? && SameBlack(n) && NearlyLeaning(n.left) && Leaning(n.right) && !IsRed(n.right)
    requires n.red ==> Leaning(n.left)
    ensures Restored(n, SplitFour(SplitPair(LeanLeft(n))))
  {
    if IsRed(n.left) && IsRed(n.left.left) {
      assert SameBlack(n.left.left) && SameBlack(n.left.right);
    }
  }

  lemma RebalanceAfterRight(n: Tree)
    requires n.Node? && SameBlack(n) && Leaning(n.left) && Leaning(n.right) && !(n.red && IsRed(n.left))
    ensures Restored(n, SplitFour(SplitPair(LeanLeft(n))))
  {
  }

  lemma {:induction false} InsertAtBalances(t: Tree, rr: RR)
    requires SameBlack(t) && Leaning(t)
    ensures SameBlack(InsertAt(t, rr)) && BlackHeight(InsertAt(t, rr)) == BlackHeight(t)
    ensures NearlyLeaning(InsertAt(t, rr))
    ensures !IsRed(t) ==> Leaning(InsertAt(t, rr))
  {
    if t.Node? {
      var c := TreeCmp(rr.owner, t.key);
      if c == 0 {
        RebalanceAfterRight(t.(elem := WithRecord(t.elem, rr)));
      } else if c < 0 {
        InsertAtBalances(t.left, rr);
        RebalanceAfterLeft(t.(left := InsertAt(t.left, rr)));
      } else {
        InsertAtBalances(t.right, rr);
        RebalanceAfterRight(t.(right := InsertAt(t.right, rr)));
      }
    }
  }

  /** Insertion keeps the tree balanced. */
  lemma InsertBalances(t: Tree, rr: RR)
    requires Balanced(t)
    ensures Balanced(Insert(t, rr))
  {
    InsertAtBalances(t, rr);
  }

  function Depth(t: Tree): nat {
    match t
    case Nil => 0
    case Node(l, _, _, r, _) => 1 + if Depth(l) > Depth(r) then Depth(l) else Depth(r)
  }

  function Pow2(n: nat): nat {
    if n == 0 then 1 else 2 * Pow2(n - 1)
  }

  lemma {:induction false} DepthWithinBlackHeight(t: Tree)
    requires SameBlack(t) && Leaning(t)
    ensures Depth(t) <= 2 * BlackHeight(t) + if IsRed(t) then 1 else 0
  {
    if t.Node? {
      DepthWithinBlackHeight(t.left);
      DepthWithinBlackHeight(t.right);
    }
  }

  function Size(t: Tree): nat {
    match t
    case Nil => 0
    case Node(l, _, _, r, _) => Size(l) + Size(r) + 1
  }

  lemma {:induction false} SizeFillsBlackHeight(t: Tree)
    requires SameBlack(t)
    ensures Size(t) + 1 >= Pow2(BlackHeight(t))
  {
    if t.Node? {
      SizeFillsBlackHeight(t.left);
      SizeFillsBlackHeight(t.right);
    }
  }

  lemma {:induction false} SizeIsNameCount(t: Tree)
    requires Ordered(t)
    ensures Size(t) == |Contents(t)|
  {
    if t.Node? {
      SizeIsNameCount(t.left);
      SizeIsNameCount(t.right);
      NodeSize(t);
    }
  }

  lemma NodeSize(t: Tree)
    requires t.Node? && Ordered(t)
    ensures |Contents(t)| == |Contents(t.left)| + |Contents(t.right)| + 1
  {
    var l, r := Contents(t.left).Keys, Contents(t.right).Keys;
    forall x | x in l
      ensures x !in r
    {
      Disjoint(t, x);
    }
    Disjoint(t, t.key);
    assert Contents(t).Keys == l + r + {t.key};
  }

  /** A search visits at most twice the logarithm of the number of names: with n names, 2^(depth/2) is at most n + 1. */
  lemma DepthIsLogarithmic(t: Tree)
    requires Balanced(t) && Ordered(t)
    ensures Pow2(Depth(t) / 2) <= |Contents(t)| + 1
  {
    DepthWithinBlackHeight(t);
    SizeFillsBlackHeight(t);
    SizeIsNameCount(t);
    Pow2Monotone(Depth(t) / 2, BlackHeight(t));
  }

  lemma {:induction false} Pow2Monotone(a: nat, b: nat)
    requires a <= b
    ensures Pow2(a) <= Pow2(b)
    decreases b
  {
    if a < b {
      Pow2Monotone(a, b - 1);
    }
  }
}
