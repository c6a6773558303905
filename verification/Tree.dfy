/**
 * The tree: leaves, and internal nodes that hold branches and a key-sorted
 * queue of pending edits.  A branch always carries the node it resolves to;
 * `loaded` says whether that node is in memory, `id` where it is stored.
 */
module Tree {
  import opened Types
  import opened Multimap
  import Leaves

  datatype Branch = Branch(minKey: Option<Key>, count: int, id: Id, loaded: bool, child: Node)

  datatype Node =
    | Leaf(leaf: Leaves.Valid)
    | Internal(branches: seq<Branch>, queue: seq<Edit>)

  // ---------------------------------------------------------------- height

  function Height(n: Node): nat
    decreases n, 0
  {
    match n
    case Leaf(_) => 0
    case Internal(bs, _) => 1 + MaxHeight(bs)
  }

  function MaxHeight(bs: seq<Branch>): nat
    decreases bs, 1
  {
    if |bs| == 0 then 0
    else
      var b := bs[0];
      assert b in bs && b.child < b;
      var h, m := Height(b.child), MaxHeight(bs[1..]);
      if h > m then h else m
  }

  lemma {:induction false} MaxHeightBounds(bs: seq<Branch>, i: nat)
    requires i < |bs|
    ensures Height(bs[i].child) <= MaxHeight(bs)
  {
    if i > 0 {
      MaxHeightBounds(bs[1..], i - 1);
    }
  }

  lemma {:induction false} MaxHeightIs(bs: seq<Branch>, cs: seq<Branch>)
    requires |bs| == |cs|
    requires forall i :: 0 <= i < |bs| ==> Height(bs[i].child) == Height(cs[i].child)
    ensures MaxHeight(bs) == MaxHeight(cs)
  {
    if |bs| > 0 {
      MaxHeightIs(bs[1..], cs[1..]);
    }
  }

  // ---------------------------------------------------------------- routing

  predicate BranchBefore(b: Branch, k: Key) {
    b.minKey.None? || b.minKey.value < k
  }

  /** std::lower_bound over the branches. */
  function BranchLower(bs: seq<Branch>, k: Key): (i: nat)
    ensures i <= |bs|
    ensures forall j :: 0 <= j < i ==> BranchBefore(bs[j], k)
    ensures i < |bs| ==> !BranchBefore(bs[i], k)
  {
    if |bs| == 0 || !BranchBefore(bs[0], k) then 0 else 1 + BranchLower(bs[1..], k)
  }

  /** FindInternalKey: the branch whose subtree a key belongs to. */
  function Route(bs: seq<Branch>, k: Key): (i: nat)
    ensures |bs| > 0 ==> i < |bs|
  {
    var i := BranchLower(bs, k);
    if i == |bs| then (if i == 0 then 0 else i - 1)
    else if bs[i].minKey.None? then i
    else if i > 0 && bs[i].minKey.value != k then i - 1
    else i
  }

  /** Separators: present from the second branch on, strictly increasing, strictly inside the node's range. */
  ghost predicate Separators(bs: seq<Branch>, lo: Option<Key>, hi: Option<Key>) {
    && (forall i :: 0 < i < |bs| ==> bs[i].minKey.Some? && StrictlyWithin(lo, hi, bs[i].minKey.value))
    && (forall i, j :: 0 <= i < j < |bs| && bs[i].minKey.Some? ==> bs[i].minKey.value < bs[j].minKey.value)
  }

  /** The key range of branch i inside a node with range [lo, hi). */
  function Lo(bs: seq<Branch>, i: nat, lo: Option<Key>): Option<Key>
    requires i < |bs|
  {
    if i == 0 then lo else bs[i].minKey
  }

  function Hi(bs: seq<Branch>, i: nat, hi: Option<Key>): Option<Key>
    requires i < |bs|
  {
    if i + 1 < |bs| then bs[i + 1].minKey else hi
  }

  /** A search-ordered tree for the keys in [lo, hi). */
  ghost predicate Ordered(n: Node, lo: Option<Key>, hi: Option<Key>) {
    match n
    case Leaf(l) => forall i :: 0 <= i < |l.pairs| ==> Within(lo, hi, l.pairs[i].key)
    case Internal(bs, q) =>
      && |bs| > 0
      && SortedEdits(q)
      && EditsWithin(q, lo, hi)
      && Separators(bs, lo, hi)
      && (forall i :: 0 <= i < |bs| ==> Ordered(bs[i].child, Lo(bs, i, lo), Hi(bs, i, hi)))
  }

  /** Routing by lower bound picks the branch whose range holds the key, and no other. */
  lemma RouteIs(bs: seq<Branch>, lo: Option<Key>, hi: Option<Key>, k: Key, i: nat)
    requires |bs| > 0 && Separators(bs, lo, hi) && Within(lo, hi, k) && i < |bs|
    ensures Route(bs, k) == i <==> Within(Lo(bs, i, lo), Hi(bs, i, hi), k)
  {
    var r, j := Route(bs, k), BranchLower(bs, k);
    RouteInRange(bs, lo, hi, k);
    if i < r && i > 0 {
      assert bs[i].minKey.value < bs[r].minKey.value;
    }
    if i < r {
      assert i + 1 == r || bs[i + 1].minKey.value < bs[r].minKey.value;
    }
    if r < i {
      assert r + 1 == i || bs[r + 1].minKey.value < bs[i].minKey.value;
    }
  }

  lemma RouteInRange(bs: seq<Branch>, lo: Option<Key>, hi: Option<Key>, k: Key)
    requires |bs| > 0 && Separators(bs, lo, hi) && Within(lo, hi, k)
    ensures var r := Route(bs, k); Within(Lo(bs, r, lo), Hi(bs, r, hi), k)
  {
    var r, j := Route(bs, k), BranchLower(bs, k);
    if j < |bs| {
      assert r + 1 < |bs| && r == j ==> bs[j].minKey.value < bs[j + 1].minKey.value;
    }
  }

  lemma {:induction false} BranchLowerSame(bs: seq<Branch>, cs: seq<Branch>, k: Key)
    requires |bs| == |cs| && forall i :: 0 <= i < |bs| ==> bs[i].minKey == cs[i].minKey
    ensures BranchLower(bs, k) == BranchLower(cs, k)
  {
    if |bs| > 0 {
      assert bs[0].minKey == cs[0].minKey;
      BranchLowerSame(bs[1..], cs[1..], k);
    }
  }

  lemma RouteSame(bs: seq<Branch>, cs: seq<Branch>, k: Key)
    requires |bs| == |cs| && forall i :: 0 <= i < |bs| ==> bs[i].minKey == cs[i].minKey
    ensures Route(bs, k) == Route(cs, k)
  {
    BranchLowerSame(bs, cs, k);
  }

  // ---------------------------------------------------------------- the queue

  /** Adds an edit in key order, behind the edits of the same key. */
  function Enqueue(q: seq<Edit>, e: Edit): seq<Edit> {
    var i := EditUpper(q, e.key);
    q[..i] + [e] + q[i..]
  }

  lemma EnqueueSorted(q: seq<Edit>, e: Edit)
    requires SortedEdits(q)
    ensures SortedEdits(Enqueue(q, e))
    ensures forall x :: x in Enqueue(q, e) ==> x == e || x in q
  {
  }

  lemma InsertOn(x: seq<Edit>, e: Edit, z: seq<Edit>, k: Key)
    ensures EditsOn(x + [e] + z, k) == EditsOn(x, k) + If(e, k) + EditsOn(z, k)
  {
    EditsOnConcat(x + [e], z, k);
    EditsOnConcat(x, [e], k);
    EditsOnOne(e, k);
  }

  lemma InsertLast(x: seq<Edit>, e: Edit, z: seq<Edit>, k: Key)
    requires e.key != k || EditsOn(z, k) == []
    ensures EditsOn(x + [e] + z, k) == EditsOn(x + z, k) + If(e, k)
  {
    InsertOn(x, e, z, k);
    EditsOnConcat(x, z, k);
  }

  /** Queueing an edit puts it last among the edits of its key and moves no other key's edits. */
  lemma EnqueueOn(q: seq<Edit>, e: Edit, k: Key)
    requires SortedEdits(q)
    ensures EditsOn(Enqueue(q, e), k) == EditsOn(q, k) + If(e, k)
  {
    var i := EditUpper(q, e.key);
    var x, z := q[..i], q[i..];
    assert forall j :: 0 <= j < |z| ==> z[j] == q[i + j] && z[j].key != e.key;
    if e.key == k {
      EditsOnNone(z, k);
    }
    InsertLast(x, e, z, k);
    assert x + z == q;
  }

  /** Position of the first edit at or above a separator; a missing separator bounds nothing. */
  function Cut(q: seq<Edit>, sep: Option<Key>): (i: nat)
    ensures i <= |q|
  {
    if sep.None? then 0 else EditLower(q, sep.value)
  }

  function Start(bs: seq<Branch>, q: seq<Edit>, i: nat): (r: nat)
    requires i < |bs|
    ensures r <= |q|
  {
    if i > 0 then Cut(q, bs[i].minKey) else 0
  }

  function End(bs: seq<Branch>, q: seq<Edit>, i: nat): (r: nat)
    requires i < |bs|
    ensures r <= |q|
  {
    if i + 1 < |bs| then Cut(q, bs[i + 1].minKey) else |q|
  }

  /** The queued edits that belong to branch i. */
  function Range(bs: seq<Branch>, q: seq<Edit>, i: nat): seq<Edit>
    requires i < |bs|
  {
    var a, b := Start(bs, q, i), End(bs, q, i);
    if a <= b then q[a..b] else []
  }

  lemma CutMonotone(q: seq<Edit>, k: Key, m: Key)
    requires k <= m
    ensures EditLower(q, k) <= EditLower(q, m)
  {
  }

  lemma RangeEnds(bs: seq<Branch>, q: seq<Edit>, lo: Option<Key>, hi: Option<Key>, i: nat)
    requires |bs| > 0 && Separators(bs, lo, hi) && i < |bs|
    ensures Start(bs, q, i) <= End(bs, q, i)
    ensures i + 1 < |bs| ==> End(bs, q, i) == Start(bs, q, i + 1)
    ensures i == 0 ==> Start(bs, q, i) == 0
    ensures i + 1 == |bs| ==> End(bs, q, i) == |q|
  {
    if i > 0 && i + 1 < |bs| {
      CutMonotone(q, bs[i].minKey.value, bs[i + 1].minKey.value);
    }
  }

  lemma CutSplits(q: seq<Edit>, k: Key, j: nat)
    requires SortedEdits(q) && j < |q|
    ensures j < EditLower(q, k) <==> q[j].key < k
  {
  }

  /** The per-branch ranges partition the queue by routing. */
  lemma RangeIsRouted(bs: seq<Branch>, q: seq<Edit>, lo: Option<Key>, hi: Option<Key>, i: nat, j: nat)
    requires |bs| > 0 && Separators(bs, lo, hi) && SortedEdits(q) && i < |bs| && EditsWithin(q, lo, hi)
    requires j < |q|
    ensures Start(bs, q, i) <= j < End(bs, q, i) <==> Route(bs, q[j].key) == i
  {
    RouteIs(bs, lo, hi, q[j].key, i);
    if i > 0 {
      CutSplits(q, bs[i].minKey.value, j);
    }
    if i + 1 < |bs| {
      CutSplits(q, bs[i + 1].minKey.value, j);
    }
  }

  lemma SliceOn(q: seq<Edit>, a: nat, b: nat, k: Key)
    requires a <= b <= |q|
    ensures EditsOn(q, k) == EditsOn(q[..a], k) + EditsOn(q[a..b], k) + EditsOn(q[b..], k)
    ensures EditsOn(q[..a] + q[b..], k) == EditsOn(q[..a], k) + EditsOn(q[b..], k)
  {
    var x, y, z := q[..a], q[a..b], q[b..];
    assert q == (x + y) + z;
    EditsOnConcat(x + y, z, k);
    EditsOnConcat(x, y, k);
    EditsOnConcat(x, z, k);
  }

  lemma SliceOnly(q: seq<Edit>, a: nat, b: nat, k: Key)
    requires a <= b <= |q|
    requires forall j :: 0 <= j < a || b <= j < |q| ==> q[j].key != k
    ensures EditsOn(q[a..b], k) == EditsOn(q, k) && EditsOn(q[..a] + q[b..], k) == []
  {
    SliceOn(q, a, b, k);
    EditsOnNone(q[..a], k);
    EditsOnNone(q[b..], k);
  }

  lemma SliceNone(q: seq<Edit>, a: nat, b: nat, k: Key)
    requires a <= b <= |q|
    requires forall j :: a <= j < b ==> q[j].key != k
    ensures EditsOn(q[a..b], k) == [] && EditsOn(q[..a] + q[b..], k) == EditsOn(q, k)
  {
    SliceOn(q, a, b, k);
    EditsOnNone(q[a..b], k);
  }

  /** A branch's range holds all pending edits of the keys routed to it, and none of the others. */
  lemma RangeOn(bs: seq<Branch>, q: seq<Edit>, lo: Option<Key>, hi: Option<Key>, i: nat, k: Key)
    requires |bs| > 0 && Separators(bs, lo, hi) && SortedEdits(q) && i < |bs| && EditsWithin(q, lo, hi)
    ensures var a, b := Start(bs, q, i), End(bs, q, i);
            && a <= b && Range(bs, q, i) == q[a..b]
            && EditsOn(Range(bs, q, i), k) == (if Route(bs, k) == i then EditsOn(q, k) else [])
            && EditsOn(q[..a] + q[b..], k) == (if Route(bs, k) == i then [] else EditsOn(q, k))
  {
    RangeEnds(bs, q, lo, hi, i);
    var a, b := Start(bs, q, i), End(bs, q, i);
    forall j | 0 <= j < |q|
      ensures a <= j < b <==> Route(bs, q[j].key) == i
    {
      RangeIsRouted(bs, q, lo, hi, i, j);
    }
    if Route(bs, k) == i {
      SliceOnly(q, a, b, k);
    } else {
      SliceNone(q, a, b, k);
    }
  }
}
