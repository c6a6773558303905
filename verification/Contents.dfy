/**
 * The in-order contents of a tree: what is read after every queue has been
 * pushed into the children it belongs to, level by level.
 */
module Contents {
  import opened Types
  import opened Multimap
  import opened Tree
  import opened Meaning
  import opened Lookup
  import Leaves

  /** Child i with the edits queued for it applied. */
  function Settled(bs: seq<Branch>, q: seq<Edit>, i: nat): Node
    requires i < |bs|
  {
    ApplyMany(bs[i].child, Range(bs, q, i), false)
  }

  lemma SettledHeight(bs: seq<Branch>, q: seq<Edit>, i: nat)
    requires i < |bs|
    ensures Height(Settled(bs, q, i)) <= MaxHeight(bs)
  {
    MaxHeightBounds(bs, i);
    ManyHeight(bs[i].child, Range(bs, q, i), false);
  }

  function Content(n: Node): seq<Pair>
    decreases Height(n), 1, 0
  {
    match n
    case Leaf(l) => Leaves.Items(l)
    case Internal(bs, q) => ContentFrom(bs, q, 0)
  }

  /** The contents of the branches from i on. */
  function ContentFrom(bs: seq<Branch>, q: seq<Edit>, i: nat): seq<Pair>
    requires i <= |bs|
    decreases 1 + MaxHeight(bs), 0, |bs| - i
  {
    if i == |bs| then []
    else
      SettledHeight(bs, q, i);
      Content(Settled(bs, q, i)) + ContentFrom(bs, q, i + 1)
  }

  // ---------------------------------------------------------------- order

  lemma SettledOrdered(n: Node, i: nat, lo: Option<Key>, hi: Option<Key>)
    requires n.Internal? && Ordered(n, lo, hi) && i < |n.branches|
    ensures Ordered(Settled(n.branches, n.queue, i), Lo(n.branches, i, lo), Hi(n.branches, i, hi))
    ensures Height(Settled(n.branches, n.queue, i)) < Height(n)
  {
    RangeWithin(n.branches, n.queue, lo, hi, i);
    ManyOrdered(n.branches[i].child, Range(n.branches, n.queue, i), false, Lo(n.branches, i, lo),
      Hi(n.branches, i, hi));
    SettledHeight(n.branches, n.queue, i);
  }

  lemma ItemsSorted(l: Leaves.Valid, lo: Option<Key>, hi: Option<Key>)
    requires PairsWithin(l.pairs, lo, hi)
    ensures Sorted(Leaves.Items(l)) && PairsWithin(Leaves.Items(l), lo, hi)
  {
  }

  lemma SortedJoin(a: seq<Pair>, b: seq<Pair>, lo: Option<Key>, mid: Option<Key>, hi: Option<Key>)
    requires Sorted(a) && Sorted(b) && PairsWithin(a, lo, mid) && PairsWithin(b, mid, hi)
    requires mid.Some? && Within(lo, hi, mid.value)
    ensures Sorted(a + b) && PairsWithin(a + b, lo, hi)
  {
    var c := a + b;
    assert forall i :: 0 <= i < |c| ==> c[i] == if i < |a| then a[i] else b[i - |a|];
  }

  /** The contents come out in key order and inside the node's range. */
  lemma {:induction false} ContentSorted(n: Node, lo: Option<Key>, hi: Option<Key>)
    requires Ordered(n, lo, hi)
    ensures Sorted(Content(n)) && PairsWithin(Content(n), lo, hi)
    decreases Height(n), 1, 0
  {
    match n
    case Leaf(l) => ItemsSorted(l, lo, hi);
    case Internal(bs, q) => ContentFromSorted(n, 0, lo, hi);
  }

  lemma {:induction false} ContentFromSorted(n: Node, i: nat, lo: Option<Key>, hi: Option<Key>)
    requires n.Internal? && Ordered(n, lo, hi) && i < |n.branches|
    ensures Sorted(ContentFrom(n.branches, n.queue, i))
    ensures PairsWithin(ContentFrom(n.branches, n.queue, i), Lo(n.branches, i, lo), hi)
    decreases Height(n), 0, |n.branches| - i
  {
    var bs, q := n.branches, n.queue;
    SettledOrdered(n, i, lo, hi);
    ContentSorted(Settled(bs, q, i), Lo(bs, i, lo), Hi(bs, i, hi));
    if i + 1 < |bs| {
      ContentFromSorted(n, i + 1, lo, hi);
      SortedJoin(Content(Settled(bs, q, i)), ContentFrom(bs, q, i + 1), Lo(bs, i, lo), Hi(bs, i, hi), hi);
    } else {
      assert ContentFrom(bs, q, i) == Content(Settled(bs, q, i)) + [];
      assert ContentFrom(bs, q, i) == Content(Settled(bs, q, i));
    }
  }

  // ---------------------------------------------------------------- the contents are denoted

  lemma {:induction false} BagUnder(k: Key, vs: seq<Value>, j: Key)
    ensures Bag(Leaves.Under(k, vs), j) == if j == k then multiset(vs) else multiset{}
  {
    if |vs| > 0 {
      assert Leaves.Under(k, vs)[1..] == Leaves.Under(k, vs[1..]);
      BagUnder(k, vs[1..], j);
      assert vs == [vs[0]] + vs[1..];
    }
  }

  lemma BagItems(l: Leaves.Valid, k: Key)
    ensures Bag(Leaves.Items(l), k) == Leaves.LeafBag(l, k)
  {
    if |l.pairs| > 0 {
      var o := Last(l.pairs).key;
      BagConcat(l.pairs, Leaves.Under(o, Leaves.Overflow.Flat(l.chain)), k);
      BagUnder(o, Leaves.Overflow.Flat(l.chain), k);
    }
  }

  lemma BagOutside(ps: seq<Pair>, lo: Option<Key>, hi: Option<Key>, k: Key)
    requires PairsWithin(ps, lo, hi) && !Within(lo, hi, k)
    ensures Bag(ps, k) == multiset{}
  {
    BagEmpty(ps, k);
  }

  /** A key's values all sit in the contents of the branch it is routed to. */
  lemma {:induction false} BagFrom(n: Node, i: nat, lo: Option<Key>, hi: Option<Key>, k: Key)
    requires n.Internal? && Ordered(n, lo, hi) && i <= |n.branches| && Within(lo, hi, k)
    ensures var r := Route(n.branches, k);
            Bag(ContentFrom(n.branches, n.queue, i), k)
            == if r < i then multiset{} else Bag(Content(Settled(n.branches, n.queue, r)), k)
    decreases |n.branches| - i
  {
    var bs, q := n.branches, n.queue;
    if i < |bs| {
      BagFrom(n, i + 1, lo, hi, k);
      var c := Settled(bs, q, i);
      BagConcat(Content(c), ContentFrom(bs, q, i + 1), k);
      RouteIs(bs, lo, hi, k, i);
      if Route(bs, k) != i {
        SettledOrdered(n, i, lo, hi);
        ContentSorted(c, Lo(bs, i, lo), Hi(bs, i, hi));
        BagOutside(Content(c), Lo(bs, i, lo), Hi(bs, i, hi), k);
      }
    }
  }

  /** The contents are one of the outcomes the tree denotes, at every key. */
  lemma {:induction false} ContentDenoted(n: Node, lo: Option<Key>, hi: Option<Key>, k: Key)
    requires Ordered(n, lo, hi) && Within(lo, hi, k)
    ensures Denotes(n, k, Bag(Content(n), k))
    decreases Height(n)
  {
    match n
    case Leaf(l) => BagItems(l, k);
    case Internal(bs, q) =>
      var r := Route(bs, k);
      BagFrom(n, 0, lo, hi, k);
      RouteIs(bs, lo, hi, k, r);
      SettledOrdered(n, r, lo, hi);
      ContentDenoted(Settled(bs, q, r), Lo(bs, r, lo), Hi(bs, r, hi), k);
      SettledStep(n, lo, hi, k, Bag(Content(n), k));
  }

  lemma SettledStep(n: Node, lo: Option<Key>, hi: Option<Key>, k: Key, c: Values)
    requires n.Internal? && Ordered(n, lo, hi) && Within(lo, hi, k)
    requires Denotes(Settled(n.branches, n.queue, Route(n.branches, k)), k, c)
    ensures Denotes(n, k, c)
  {
    var bs, q, r := n.branches, n.queue, Route(n.branches, k);
    RangeOn(bs, q, lo, hi, r, k);
    OrderedSorted(bs[r].child, Lo(bs, r, lo), Hi(bs, r, hi));
    var m := ManyStep(bs[r].child, Range(bs, q, r), k, c);
    StepsJoin(Pending(bs[r].child, k), EditsOn(q, k), Held(n, k), m, c);
  }

  // ---------------------------------------------------------------- pushing keeps the contents

  lemma EditLowerIs(q: seq<Edit>, k: Key, i: nat)
    requires i <= |q|
    requires forall j :: 0 <= j < i ==> q[j].key < k
    requires i < |q| ==> q[i].key >= k
    ensures EditLower(q, k) == i
  {
  }

  lemma LowerLeft(q: seq<Edit>, a: nat, b: nat, k: Key)
    requires SortedEdits(q) && a <= b <= |q| && EditLower(q, k) <= a
    ensures EditLower(q[..a] + q[b..], k) == EditLower(q, k)
  {
    var s, r := EditLower(q, k), q[..a] + q[b..];
    assert forall j :: 0 <= j < s ==> r[j] == q[j];
    assert s < |r| ==> r[s] == if s < a then q[s] else q[b];
    EditLowerIs(r, k, s);
  }

  lemma LowerRight(q: seq<Edit>, a: nat, b: nat, k: Key)
    requires SortedEdits(q) && a <= b <= EditLower(q, k)
    ensures EditLower(q[..a] + q[b..], k) == EditLower(q, k) - (b - a)
  {
    hide EditLower, SortedEdits;
    var s, r := EditLower(q, k) - (b - a), q[..a] + q[b..];
    assert forall j :: 0 <= j < |r| ==> r[j] == if j < a then q[j] else q[j + (b - a)];
    EditLowerIs(r, k, s);
  }

  lemma SliceLeft(q: seq<Edit>, a: nat, b: nat, s: nat, e: nat)
    requires s <= e <= a <= b <= |q|
    ensures (q[..a] + q[b..])[s..e] == q[s..e]
  {
  }

  lemma SliceRight(q: seq<Edit>, a: nat, b: nat, s: nat, e: nat)
    requires a <= b <= s <= e <= |q|
    ensures (q[..a] + q[b..])[s - (b - a)..e - (b - a)] == q[s..e]
  {
  }

  lemma StartsAtMost(bs: seq<Branch>, q: seq<Edit>, lo: Option<Key>, hi: Option<Key>, i: nat, j: nat)
    requires |bs| > 0 && Separators(bs, lo, hi) && i <= j < |bs|
    ensures Start(bs, q, i) <= Start(bs, q, j) <= End(bs, q, j)
    ensures i < j ==> End(bs, q, i) <= Start(bs, q, j)
  {
    RangeEnds(bs, q, lo, hi, j);
    if 0 < i < j {
      CutMonotone(q, bs[i].minKey.value, bs[j].minKey.value);
    }
    if i + 1 < j {
      CutMonotone(q, bs[i + 1].minKey.value, bs[j].minKey.value);
    }
  }

  /** Taking out the range of branch i moves the starts behind it forward by its length. */
  lemma StartAfter(bs: seq<Branch>, q: seq<Edit>, lo: Option<Key>, hi: Option<Key>, i: nat, j: nat)
    requires |bs| > 0 && Separators(bs, lo, hi) && SortedEdits(q) && i < |bs| && j < |bs|
    ensures var a, b, s := Start(bs, q, i), End(bs, q, i), Start(bs, q, j);
            && a <= b
            && (j <= i ==> s <= a && Start(bs, q[..a] + q[b..], j) == s)
            && (j > i ==> b <= s && Start(bs, q[..a] + q[b..], j) == s - (b - a))
  {
    var a, b := Start(bs, q, i), End(bs, q, i);
    RangeEnds(bs, q, lo, hi, i);
    if j <= i {
      StartsAtMost(bs, q, lo, hi, j, i);
      if j > 0 {
        LowerLeft(q, a, b, bs[j].minKey.value);
      }
    } else {
      StartsAtMost(bs, q, lo, hi, i, j);
      LowerRight(q, a, b, bs[j].minKey.value);
    }
  }

  lemma EndAfter(bs: seq<Branch>, q: seq<Edit>, lo: Option<Key>, hi: Option<Key>, i: nat, j: nat)
    requires |bs| > 0 && Separators(bs, lo, hi) && SortedEdits(q) && i < |bs| && j < |bs|
    ensures var a, b, e := Start(bs, q, i), End(bs, q, i), End(bs, q, j);
            && a <= b
            && (j < i ==> e <= a && End(bs, q[..a] + q[b..], j) == e)
            && (j >= i ==> b <= e && End(bs, q[..a] + q[b..], j) == e - (b - a))
  {
    hide EditLower, SortedEdits;
    RangeEnds(bs, q, lo, hi, i);
    if j + 1 < |bs| {
      StartAfter(bs, q, lo, hi, i, j + 1);
    }
  }

  lemma RangeBefore(bs: seq<Branch>, q: seq<Edit>, lo: Option<Key>, hi: Option<Key>, i: nat, j: nat)
    requires |bs| > 0 && Separators(bs, lo, hi) && SortedEdits(q) && j < i < |bs|
    ensures Start(bs, q, i) <= End(bs, q, i)
    ensures Range(bs, q[..Start(bs, q, i)] + q[End(bs, q, i)..], j) == Range(bs, q, j)
  {
    hide EditLower, SortedEdits, Separators, Start, End;
    StartAfter(bs, q, lo, hi, i, j);
    EndAfter(bs, q, lo, hi, i, j);
    StartsAtMost(bs, q, lo, hi, j, j);
    var a, b, s, e := Start(bs, q, i), End(bs, q, i), Start(bs, q, j), End(bs, q, j);
    var r := q[..a] + q[b..];
    SliceLeft(q, a, b, s, e);
    assert Range(bs, r, j) == r[s..e];
  }

  lemma RangeBehind(bs: seq<Branch>, q: seq<Edit>, lo: Option<Key>, hi: Option<Key>, i: nat, j: nat)
    requires |bs| > 0 && Separators(bs, lo, hi) && SortedEdits(q) && i < j < |bs|
    ensures Start(bs, q, i) <= End(bs, q, i)
    ensures Range(bs, q[..Start(bs, q, i)] + q[End(bs, q, i)..], j) == Range(bs, q, j)
  {
    hide EditLower, SortedEdits, Separators, Start, End;
    StartAfter(bs, q, lo, hi, i, j);
    EndAfter(bs, q, lo, hi, i, j);
    StartsAtMost(bs, q, lo, hi, j, j);
    var a, b, s, e := Start(bs, q, i), End(bs, q, i), Start(bs, q, j), End(bs, q, j);
    var r := q[..a] + q[b..];
    SliceRight(q, a, b, s, e);
    assert Range(bs, r, j) == r[s - (b - a)..e - (b - a)];
  }

  /** Taking out the range of branch i empties that range and no other. */
  lemma RangeAfter(bs: seq<Branch>, q: seq<Edit>, lo: Option<Key>, hi: Option<Key>, i: nat, j: nat)
    requires |bs| > 0 && Separators(bs, lo, hi) && SortedEdits(q) && i < |bs| && j < |bs|
    ensures Start(bs, q, i) <= End(bs, q, i)
    ensures Range(bs, Except(q, Start(bs, q, i), End(bs, q, i)), j) == if j == i then [] else Range(bs, q, j)
  {
    if j == i {
      StartAfter(bs, q, lo, hi, i, i);
      EndAfter(bs, q, lo, hi, i, i);
    } else if j < i {
      RangeBefore(bs, q, lo, hi, i, j);
    } else {
      RangeBehind(bs, q, lo, hi, i, j);
    }
  }

  lemma RangeSame(bs: seq<Branch>, cs: seq<Branch>, q: seq<Edit>, i: nat)
    requires |bs| == |cs| && forall j :: 0 <= j < |bs| ==> bs[j].minKey == cs[j].minKey
    requires i < |bs|
    ensures Range(bs, q, i) == Range(cs, q, i)
  {
  }

  /** Equal settled children make equal contents. */
  lemma {:induction false} ContentFromSame(bs: seq<Branch>, q: seq<Edit>, cs: seq<Branch>, r: seq<Edit>, i: nat)
    requires |bs| == |cs| && i <= |bs|
    requires forall j :: 0 <= j < |bs| ==> Content(Settled(bs, q, j)) == Content(Settled(cs, r, j))
    ensures ContentFrom(bs, q, i) == ContentFrom(cs, r, i)
    decreases |bs| - i
  {
    if i < |bs| {
      ContentFromSame(bs, q, cs, r, i + 1);
    }
  }

  lemma PushSettled(n: Node, i: nat, lo: Option<Key>, hi: Option<Key>, j: nat)
    requires n.Internal? && Ordered(n, lo, hi) && Parsed(n) && i < |n.branches| && j < |n.branches|
    ensures var p := Push(n, i, lo, hi, false);
            |p.branches| == |n.branches| && Settled(p.branches, p.queue, j) == Settled(n.branches, n.queue, j)
  {
    hide Apply, PendFrom, Start;
    var bs, q, p := n.branches, n.queue, Push(n, i, lo, hi, false);
    PendIsRange(n, i, lo, hi);
    RangeAfter(bs, q, lo, hi, i, j);
    RangeSame(bs, p.branches, p.queue, j);
  }

  /** Pushing a branch's edits down changes no item of the contents. */
  lemma PushContent(n: Node, i: nat, lo: Option<Key>, hi: Option<Key>)
    requires n.Internal? && Ordered(n, lo, hi) && Parsed(n) && i < |n.branches|
    ensures Content(Push(n, i, lo, hi, false)) == Content(n)
  {
    var p := Push(n, i, lo, hi, false);
    forall j | 0 <= j < |n.branches|
      ensures Content(Settled(n.branches, n.queue, j)) == Content(Settled(p.branches, p.queue, j))
    {
      PushSettled(n, i, lo, hi, j);
    }
    ContentFromSame(n.branches, n.queue, p.branches, p.queue, 0);
  }

  /** Replacing a child that has nothing queued by one with equal contents. */
  lemma PutChildContent(p: Node, i: nat, c: Node)
    requires p.Internal? && i < |p.branches|
    requires Range(p.branches, p.queue, i) == []
    requires Content(c) == Content(p.branches[i].child)
    ensures Content(PutChild(p, i, c)) == Content(p)
  {
    var bs, q, cs := p.branches, p.queue, PutChild(p, i, c).branches;
    forall j | 0 <= j < |bs|
      ensures Content(Settled(bs, q, j)) == Content(Settled(cs, q, j))
    {
      RangeSame(bs, cs, q, j);
    }
    ContentFromSame(bs, q, cs, q, 0);
  }

  lemma PushedRange(n: Node, i: nat, lo: Option<Key>, hi: Option<Key>)
    requires n.Internal? && Ordered(n, lo, hi) && Parsed(n) && i < |n.branches|
    ensures var p := Push(n, i, lo, hi, false);
            Range(p.branches, p.queue, i) == [] && p.branches[i].child == Settled(n.branches, n.queue, i)
  {
    var bs, q, p := n.branches, n.queue, Push(n, i, lo, hi, false);
    PendIsRange(n, i, lo, hi);
    RangeAfter(bs, q, lo, hi, i, i);
    RangeSame(bs, p.branches, p.queue, i);
  }

  /** Finding leaves the in-order contents exactly as they were. */
  lemma {:induction false} FindContent(n: Node, key: Option<Key>, lo: Option<Key>, hi: Option<Key>)
    requires Ordered(n, lo, hi) && Parsed(n)
    ensures Content(Find(n, key, lo, hi)) == Content(n)
    decreases Height(n)
  {
    if n.Internal? {
      var i := if key.Some? then Route(n.branches, key.value) else 0;
      var p := Push(n, i, lo, hi, false);
      PushedChild(n, i, lo, hi, false);
      PushContent(n, i, lo, hi);
      PushedRange(n, i, lo, hi);
      var flo, fhi := ForkLo(n.branches, i, lo), ForkHi(n.branches, i, hi);
      FindContent(p.branches[i].child, key, flo, fhi);
      PutChildContent(p, i, Find(p.branches[i].child, key, flo, fhi));
    }
  }
}
