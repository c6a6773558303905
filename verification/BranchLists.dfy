/** Lists of branches: what joining two of them does to order, routing and meaning. */
module BranchLists {
  import opened Types
  import opened Multimap
  import opened Tree
  import opened Meaning
  import opened Lookup
  import opened Contents
  import Leaves

  /** A branch list that is in search order for the keys in [lo, hi). */
  ghost predicate OrderedList(bs: seq<Branch>, lo: Option<Key>, hi: Option<Key>) {
    && |bs| > 0
    && Separators(bs, lo, hi)
    && forall i :: 0 <= i < |bs| ==> Ordered(bs[i].child, Lo(bs, i, lo), Hi(bs, i, hi))
  }

  /** A list of branches as a node with nothing queued. */
  function AsNode(bs: seq<Branch>): Node { Internal(bs, []) }

  lemma ListIsNode(bs: seq<Branch>, lo: Option<Key>, hi: Option<Key>)
    ensures OrderedList(bs, lo, hi) <==> Ordered(AsNode(bs), lo, hi)
  {
  }

  lemma ListPends(bs: seq<Branch>, k: Key)
    requires |bs| > 0
    ensures Pending(AsNode(bs), k) == Pending(bs[Route(bs, k)].child, k)
    ensures Held(AsNode(bs), k) == Held(bs[Route(bs, k)].child, k)
  {
    assert Pending(AsNode(bs), k) == Pending(bs[Route(bs, k)].child, k) + [];
  }

  ghost predicate Wider(lo: Option<Key>, hi: Option<Key>, lo': Option<Key>, hi': Option<Key>) {
    && (lo'.Some? ==> lo.Some? && lo'.value <= lo.value)
    && (hi'.Some? ==> hi.Some? && hi.value <= hi'.value)
  }

  /** A tree ordered for a range is ordered for any wider one. */
  lemma {:induction false} WidenOrdered(n: Node, lo: Option<Key>, hi: Option<Key>, lo': Option<Key>, hi': Option<Key>)
    requires Ordered(n, lo, hi) && Wider(lo, hi, lo', hi')
    ensures Ordered(n, lo', hi')
    decreases n
  {
    match n
    case Leaf(_) =>
    case Internal(bs, q) =>
      forall i | 0 <= i < |bs|
        ensures Ordered(bs[i].child, Lo(bs, i, lo'), Hi(bs, i, hi'))
      {
        WidenOrdered(bs[i].child, Lo(bs, i, lo), Hi(bs, i, hi), Lo(bs, i, lo'), Hi(bs, i, hi'));
      }
  }

  lemma WidenList(bs: seq<Branch>, lo: Option<Key>, hi: Option<Key>, lo': Option<Key>, hi': Option<Key>)
    requires OrderedList(bs, lo, hi) && Wider(lo, hi, lo', hi')
    ensures OrderedList(bs, lo', hi')
  {
    WidenOrdered(AsNode(bs), lo, hi, lo', hi');
  }

  // ---------------------------------------------------------------- joining

  /** a serves the keys below m, d those from m on, and says so in its first separator. */
  ghost predicate Joinable(a: seq<Branch>, d: seq<Branch>, m: Key, lo: Option<Key>, hi: Option<Key>) {
    && OrderedList(a, lo, Some(m)) && OrderedList(d, Some(m), hi)
    && d[0].minKey == Some(m) && StrictlyWithin(lo, hi, m)
    && (a[0].minKey.Some? ==> a[0].minKey.value < m)
  }

  lemma JoinSeparators(a: seq<Branch>, d: seq<Branch>, m: Key, lo: Option<Key>, hi: Option<Key>)
    requires Joinable(a, d, m, lo, hi)
    ensures Separators(a + d, lo, hi)
  {
    var c := a + d;
    forall i | 0 < i < |c|
      ensures c[i].minKey.Some? && StrictlyWithin(lo, hi, c[i].minKey.value)
    {
      assert c[i] == if i < |a| then a[i] else d[i - |a|];
    }
    forall i, j | 0 <= i < j < |c| && c[i].minKey.Some?
      ensures c[i].minKey.value < c[j].minKey.value
    {
      JoinPair(a, d, m, lo, hi, i, j);
    }
  }

  lemma JoinPair(a: seq<Branch>, d: seq<Branch>, m: Key, lo: Option<Key>, hi: Option<Key>, i: nat, j: nat)
    requires Joinable(a, d, m, lo, hi) && i < j < |a + d| && (a + d)[i].minKey.Some?
    ensures (a + d)[j].minKey.Some? && (a + d)[i].minKey.value < (a + d)[j].minKey.value
  {
    if j < |a| {
      assert a[i].minKey.value < a[j].minKey.value;
    } else if i < |a| {
      assert a[i].minKey.value < m;
      assert d[j - |a|].minKey.value >= m;
    } else {
      assert d[i - |a|].minKey.value < d[j - |a|].minKey.value;
    }
  }

  lemma JoinOrdered(a: seq<Branch>, d: seq<Branch>, m: Key, lo: Option<Key>, hi: Option<Key>)
    requires Joinable(a, d, m, lo, hi)
    ensures OrderedList(a + d, lo, hi)
  {
    var c := a + d;
    JoinSeparators(a, d, m, lo, hi);
    forall i | 0 <= i < |c|
      ensures Ordered(c[i].child, Lo(c, i, lo), Hi(c, i, hi))
    {
      JoinChild(a, d, m, lo, hi, i);
    }
  }

  lemma JoinChild(a: seq<Branch>, d: seq<Branch>, m: Key, lo: Option<Key>, hi: Option<Key>, i: nat)
    requires Joinable(a, d, m, lo, hi) && i < |a + d|
    ensures Ordered((a + d)[i].child, Lo(a + d, i, lo), Hi(a + d, i, hi))
  {
    var c := a + d;
    if i < |a| {
      assert c[i] == a[i] && Lo(c, i, lo) == Lo(a, i, lo);
      assert i + 1 < |a| ==> c[i + 1] == a[i + 1];
      assert i + 1 == |a| ==> c[i + 1] == d[0];
      assert Hi(c, i, hi) == Hi(a, i, Some(m));
    } else {
      var j := i - |a|;
      assert c[i] == d[j] && (j + 1 < |d| ==> c[i + 1] == d[j + 1]);
      assert Lo(c, i, lo) == Lo(d, j, Some(m)) && Hi(c, i, hi) == Hi(d, j, hi);
    }
  }

  /** A key is looked up in the part of the join that serves it. */
  lemma JoinRoute(a: seq<Branch>, d: seq<Branch>, m: Key, lo: Option<Key>, hi: Option<Key>, k: Key)
    requires Joinable(a, d, m, lo, hi) && Within(lo, hi, k)
    ensures Route(a + d, k) == if k < m then Route(a, k) else |a| + Route(d, k)
  {
    hide Ordered, BranchLower, Route, Separators;
    var c := a + d;
    JoinOrdered(a, d, m, lo, hi);
    if k < m {
      var r := Route(a, k);
      RouteIs(a, lo, Some(m), k, r);
      assert r + 1 < |a| ==> c[r + 1] == a[r + 1];
      assert Lo(c, r, lo) == Lo(a, r, lo) && Hi(c, r, hi) == Hi(a, r, Some(m));
      RouteIs(c, lo, hi, k, r);
    } else {
      var r := Route(d, k);
      RouteIs(d, Some(m), hi, k, r);
      assert r + 1 < |d| ==> c[|a| + r + 1] == d[r + 1];
      assert Lo(c, |a| + r, lo) == Lo(d, r, Some(m)) && Hi(c, |a| + r, hi) == Hi(d, r, hi);
      RouteIs(c, lo, hi, k, |a| + r);
    }
  }

  /** Lists that route a key to the same child mean the same for it. */
  lemma SameChild(bs: seq<Branch>, cs: seq<Branch>, k: Key)
    requires |bs| > 0 && |cs| > 0 && bs[Route(bs, k)].child == cs[Route(cs, k)].child
    ensures Pending(AsNode(bs), k) == Pending(AsNode(cs), k)
    ensures Held(AsNode(bs), k) == Held(AsNode(cs), k)
  {
    ListPends(bs, k);
    ListPends(cs, k);
  }

  lemma JoinMeans(a: seq<Branch>, d: seq<Branch>, m: Key, lo: Option<Key>, hi: Option<Key>, k: Key)
    requires Joinable(a, d, m, lo, hi) && Within(lo, hi, k)
    ensures var part := if k < m then a else d;
            && Pending(AsNode(a + d), k) == Pending(AsNode(part), k)
            && Held(AsNode(a + d), k) == Held(AsNode(part), k)
  {
    hide AsNode, BranchLower, EditsOn, Held, Ordered, Route;
    JoinRoute(a, d, m, lo, hi, k);
    SameChild(a + d, if k < m then a else d, k);
  }

  // ---------------------------------------------------------------- the first separator

  /** Setting the first separator, as the parent of a split does. */
  function WithFirst(bs: seq<Branch>, sep: Option<Key>): seq<Branch>
    requires |bs| > 0
  {
    bs[0 := bs[0].(minKey := sep)]
  }

  lemma WithFirstOrdered(bs: seq<Branch>, sep: Option<Key>, lo: Option<Key>, hi: Option<Key>)
    requires OrderedList(bs, lo, hi)
    requires sep.Some? ==> forall j :: 0 < j < |bs| ==> sep.value < bs[j].minKey.value
    ensures OrderedList(WithFirst(bs, sep), lo, hi)
  {
    var c := WithFirst(bs, sep);
    assert forall i :: 0 < i < |bs| ==> c[i] == bs[i];
    assert Separators(c, lo, hi);
    forall i | 0 <= i < |c|
      ensures Ordered(c[i].child, Lo(c, i, lo), Hi(c, i, hi))
    {
      assert Lo(c, i, lo) == Lo(bs, i, lo) && Hi(c, i, hi) == Hi(bs, i, hi);
      assert c[i].child == bs[i].child;
    }
  }

  lemma WithFirstRoute(bs: seq<Branch>, sep: Option<Key>, lo: Option<Key>, hi: Option<Key>, k: Key)
    requires OrderedList(bs, lo, hi) && OrderedList(WithFirst(bs, sep), lo, hi) && Within(lo, hi, k)
    ensures Route(WithFirst(bs, sep), k) == Route(bs, k)
  {
    var c, r := WithFirst(bs, sep), Route(bs, k);
    assert forall i :: 0 < i < |bs| ==> c[i] == bs[i];
    RouteIs(bs, lo, hi, k, r);
    assert Lo(c, r, lo) == Lo(bs, r, lo) && Hi(c, r, hi) == Hi(bs, r, hi);
    RouteIs(c, lo, hi, k, r);
  }

  lemma WithFirstMeans(bs: seq<Branch>, sep: Option<Key>, lo: Option<Key>, hi: Option<Key>, k: Key)
    requires OrderedList(bs, lo, hi) && OrderedList(WithFirst(bs, sep), lo, hi) && Within(lo, hi, k)
    ensures Pending(AsNode(WithFirst(bs, sep)), k) == Pending(AsNode(bs), k)
    ensures Held(AsNode(WithFirst(bs, sep)), k) == Held(AsNode(bs), k)
  {
    WithFirstRoute(bs, sep, lo, hi, k);
    ListPends(bs, k);
    ListPends(WithFirst(bs, sep), k);
    assert WithFirst(bs, sep)[Route(bs, k)].child == bs[Route(bs, k)].child;
  }

  // ---------------------------------------------------------------- contents

  function ListContent(bs: seq<Branch>): seq<Pair> {
    if |bs| == 0 then [] else Content(bs[0].child) + ListContent(bs[1..])
  }

  lemma {:induction false} ContentFromList(bs: seq<Branch>, i: nat)
    requires i <= |bs|
    ensures ContentFrom(bs, [], i) == ListContent(bs[i..])
    decreases |bs| - i
  {
    if i < |bs| {
      ContentFromList(bs, i + 1);
      assert bs[i..][1..] == bs[i + 1..];
      assert Settled(bs, [], i) == bs[i].child;
    }
  }

  lemma ListContentIs(bs: seq<Branch>)
    ensures Content(AsNode(bs)) == ListContent(bs)
  {
    ContentFromList(bs, 0);
    assert bs[0..] == bs;
  }

  lemma {:induction false} ListContentJoin(a: seq<Branch>, d: seq<Branch>)
    ensures ListContent(a + d) == ListContent(a) + ListContent(d)
  {
    if |a| == 0 {
      assert a + d == d;
    } else {
      assert (a + d)[1..] == a[1..] + d;
      ListContentJoin(a[1..], d);
    }
  }

  lemma ListContentFirst(bs: seq<Branch>, sep: Option<Key>)
    requires |bs| > 0
    ensures ListContent(WithFirst(bs, sep)) == ListContent(bs)
  {
    assert WithFirst(bs, sep)[1..] == bs[1..];
  }
}
