/** Runs whose edits are all guaranteed, and truthfully so: every count stays right, so offsets can be trusted. */
module Guarantees {
  import opened Types
  import opened Multimap
  import opened Tree
  import opened Meaning
  import opened Lookup
  import opened Contents
  import opened Counting
  import opened Seeking
  import opened Ranking
  import Leaves

  /** An edit whose guarantee holds for everything the tree may stand for. */
  ghost predicate Kept(n: Node, e: Edit) {
    e.guaranteed && forall c :: Denotes(n, e.key, c) ==> Effective(e, c)
  }

  /** Every edit of the run is guaranteed, and keeps its promise when it is made. */
  ghost predicate AllKept(n: Node, calls: seq<Call>)
    decreases |calls|
  {
    |calls| > 0 ==>
      && (calls[0].Change? ==> Kept(n, calls[0].edit))
      && AllKept(Exec(n, calls[0]).0, calls[1..])
  }

  lemma {:induction false} TruthfulAppend(p: seq<Edit>, e: Edit, b: Values)
    requires Truthful(p, b) && forall c :: Steps(p, b, c) ==> Effective(e, c)
    ensures Truthful(p + [e], b)
  {
    hide Step, Effective;
    if |p| == 0 {
      assert p + [e] == [e] && [e][1..] == [];
      assert Steps(p, b, b);
    } else {
      assert (p + [e])[1..] == p[1..] + [e];
      forall m | Step(p[0], b, m)
        ensures Truthful(p[1..] + [e], m)
      {
        forall c | Steps(p[1..], m, c)
          ensures Effective(e, c)
        {
          StepsCons(p, b, m, c);
        }
        TruthfulAppend(p[1..], e, m);
      }
    }
  }

  lemma ChangeHonest(n: Node, e: Edit)
    requires Ordered(n, None, None) && Counted(n) && Honest(n, None, None) && Kept(n, e)
    ensures Counted(Apply(n, e, false)) && Honest(Apply(n, e, false), None, None)
  {
    hide Truthful, Steps, Ordered;
    var r := Apply(n, e, false);
    forall k
      ensures HonestAt(r, k)
    {
      assert HonestAt(n, k);
      if n.Leaf? {
        LeafHonest(r, k);
      } else {
        OrderedSorted(n, None, None);
        ShallowPends(n, e, k);
        if k == e.key {
          TruthfulAppend(Pending(n, k), e, Held(n, k));
        } else {
          assert Pending(n, k) + [] == Pending(n, k);
        }
      }
    }
  }

  lemma LeafHonest(n: Node, k: Key)
    requires n.Leaf?
    ensures HonestAt(n, k)
  {
  }

  /** Below a node with nothing queued for branch i, a key of that branch has pending what its child has. */
  lemma ClearedPends(p: Node, i: nat, lo: Option<Key>, hi: Option<Key>, k: Key)
    requires p.Internal? && Ordered(p, lo, hi) && i < |p.branches| && Range(p.branches, p.queue, i) == []
    requires Within(lo, hi, k) && Route(p.branches, k) == i
    ensures EditsOn(p.queue, k) == [] && Within(Lo(p.branches, i, lo), Hi(p.branches, i, hi), k)
  {
    hide Ordered, Separators;
    OrderedParts(p, lo, hi);
    RangeOn(p.branches, p.queue, lo, hi, i, k);
    RouteIs(p.branches, lo, hi, k, i);
  }

  lemma PutChildHonest(p: Node, i: nat, d: Node, lo: Option<Key>, hi: Option<Key>)
    requires p.Internal? && Ordered(p, lo, hi) && i < |p.branches| && Range(p.branches, p.queue, i) == []
    requires Honest(p, lo, hi) && Honest(d, Lo(p.branches, i, lo), Hi(p.branches, i, hi))
    ensures Honest(PutChild(p, i, d), lo, hi)
  {
    hide Truthful, Ordered, AllGuaranteed, Range;
    var r := PutChild(p, i, d);
    forall k | Within(lo, hi, k)
      ensures HonestAt(r, k)
    {
      RouteSame(p.branches, r.branches, k);
      assert HonestAt(p, k);
      if Route(p.branches, k) == i {
        ClearedPends(p, i, lo, hi, k);
        assert HonestAt(d, k);
        assert Pending(r, k) == Pending(d, k) + [] == Pending(d, k);
      }
    }
  }

  /** Counts are right at both ends, and the contents equal: so are the counts. */
  lemma SameCount(c: Node, d: Node, lo: Option<Key>, hi: Option<Key>)
    requires Ordered(c, lo, hi) && Counted(c) && Honest(c, lo, hi)
    requires Ordered(d, lo, hi) && Counted(d) && Honest(d, lo, hi)
    requires Content(c) == Content(d)
    ensures ItemCount(c) == ItemCount(d)
  {
    hide Content, ItemCount, Ordered, Counted, Honest;
    ContentCount(c, lo, hi);
    ContentCount(d, lo, hi);
  }

  lemma PutChildCounted(p: Node, i: nat, d: Node)
    requires p.Internal? && i < |p.branches| && Counted(p) && Counted(d)
    requires ItemCount(d) == ItemCount(p.branches[i].child)
    ensures Counted(PutChild(p, i, d))
  {
  }

  /** Finding a key in an honest tree leaves it honest, with every stored count right. */
  lemma {:induction false} FindHonest(n: Node, key: Option<Key>, lo: Option<Key>, hi: Option<Key>)
    requires Ordered(n, lo, hi) && Parsed(n) && Counted(n) && Honest(n, lo, hi)
    ensures Counted(Find(n, key, lo, hi)) && Honest(Find(n, key, lo, hi), lo, hi)
    decreases Height(n)
  {
    hide Ordered, Parsed, Counted, Honest, Push, Content, Range;
    if n.Internal? {
      OrderedParts(n, lo, hi);
      var i := if key.Some? then Route(n.branches, key.value) else 0;
      var p := Push(n, i, lo, hi, false);
      PushedChild(n, i, lo, hi, false);
      PushedHonest(n, i, lo, hi);
      PushedRange(n, i, lo, hi);
      var flo, fhi := ForkLo(n.branches, i, lo), ForkHi(n.branches, i, hi);
      var c := p.branches[i].child;
      var d := Find(c, key, flo, fhi);
      FindHonest(c, key, flo, fhi);
      FindOrdered(c, key, flo, fhi);
      FindContent(c, key, flo, fhi);
      SameCount(c, d, flo, fhi);
      PutChildCounted(p, i, d);
      PushedBounds(n, i, lo, hi);
      PutChildHonest(p, i, d, lo, hi);
    }
  }

  lemma PushedBounds(n: Node, i: nat, lo: Option<Key>, hi: Option<Key>)
    requires n.Internal? && Ordered(n, lo, hi) && Parsed(n) && i < |n.branches|
    ensures var p := Push(n, i, lo, hi, false);
            && ForkLo(n.branches, i, lo) == Lo(p.branches, i, lo)
            && ForkHi(n.branches, i, hi) == Hi(p.branches, i, hi)
  {
    PendIsRange(n, i, lo, hi);
  }

  /** A run of truthful guaranteed edits and lookups keeps every count right, at any height. */
  lemma {:induction false} RunHonest(n: Node, calls: seq<Call>)
    requires Ordered(n, None, None) && Parsed(n) && Counted(n) && Honest(n, None, None)
    requires AllKept(n, calls)
    ensures var t := Run(n, calls).0;
            Ordered(t, None, None) && Parsed(t) && Counted(t) && Honest(t, None, None)
    decreases |calls|
  {
    hide Ordered, Parsed, Counted, Honest, Find;
    RunOrdered(n, calls);
    if |calls| > 0 {
      ExecOrdered(n, calls[0]);
      match calls[0] {
        case Change(e) => ChangeHonest(n, e);
        case Query(k) => FindHonest(n, Some(k), None, None);
      }
      RunHonest(Exec(n, calls[0]).0, calls[1..]);
    }
  }

  /**
   * At any point of such a run: the root counts the items, seek(m) lands on the
   * m-th item, and the rank of a leaf position it lands on is m again.
   */
  lemma RunSeeks(n: Node, calls: seq<Call>, m: nat)
    requires Ordered(n, None, None) && Parsed(n) && Counted(n) && Honest(n, None, None)
    requires AllKept(n, calls)
    ensures var t := Run(n, calls).0;
            && ItemCount(t) == |Content(t)|
            && (m < |Content(t)| ==>
                  var (s, place) := Seek(t, m, None, None);
                  && place.Some? && Content(s) == Content(t)
                  && ItemAt(s, place.value) == Some(Content(t)[m])
                  && (place.value.spot.OnPair? ==> Rank(s, place.value, None, None) == m))
  {
    hide Ordered, Parsed, Counted, Honest, Seek, Rank, Run, Content, ItemAt;
    RunHonest(n, calls);
    var t := Run(n, calls).0;
    ContentCount(t, None, None);
    HonestSeekable(t, None, None);
    if m < |Content(t)| {
      SeekLands(t, m, None, None);
      RankOfSeek(t, m);
    }
  }
}
