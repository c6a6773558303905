/**
 * Trees with mixed flags in queues at every level: each edit does to the number
 * of items what its flag makes the counts expect, whichever edits go deep first.
 */
module Steadiness {
  import opened Types
  import opened Multimap
  import opened Tree
  import opened Meaning
  import opened Lookup
  import opened Contents
  import opened Counting
  import opened Merging
  import opened Flushing
  import opened Seeking
  import opened Standing
  import opened Trust
  import opened Cursors
  import opened Scanning
  import opened Promises
  import Leaves
  import Overflow

  // ---------------------------------------------------------------- edits of one key

  /** What the counts expect of an edit. */
  function Expected(e: Edit): int {
    if e.guaranteed then e.Delta() else 0
  }

  /** Each edit, in turn, does what is expected. */
  ghost predicate AsExpected(es: seq<Edit>, b: Values)
    decreases |es|
  {
    |es| > 0 ==> Effect(es[0], b) == Expected(es[0]) && forall m :: Step(es[0], b, m) ==> AsExpected(es[1..], m)
  }

  /** The edits from a on do, and once they have gone deep the others still do, in any such order. */
  ghost predicate SteadySplit(es: seq<Edit>, b: Values, a: nat)
    requires a <= |es|
    decreases |es|, 0
  {
    AsExpected(es[a..], b) && (a < |es| ==> forall m :: Steps(es[a..], b, m) ==> Steady(es[..a], m))
  }

  ghost predicate Steady(es: seq<Edit>, b: Values)
    decreases |es|, 1
  {
    forall a :: 0 <= a <= |es| ==> SteadySplit(es, b, a)
  }

  lemma SteadyParts(ps: seq<Edit>, qs: seq<Edit>, b: Values)
    requires Steady(ps + qs, b)
    ensures AsExpected(ps + qs, b) && AsExpected(qs, b)
    ensures forall m :: Steps(qs, b, m) ==> Steady(ps, m)
  {
    hide AsExpected, Steps;
    var es := ps + qs;
    assert SteadySplit(es, b, 0) && es[0..] == es;
    assert SteadySplit(es, b, |ps|) && es[|ps|..] == qs && es[..|ps|] == ps;
    if qs == [] {
      assert ps + qs == ps;
      NoSteps(b);
    }
  }

  lemma NoSteps(b: Values)
    ensures forall m :: Steps([], b, m) ==> m == b
  {
  }

  // -- keys to which nothing can happen

  lemma {:induction false} UpsertsExpected(es: seq<Edit>, b: Values)
    requires forall j :: 0 <= j < |es| ==> es[j].op == UPSERT
    requires b != multiset{}
    ensures AsExpected(es, b)
    ensures forall m :: Steps(es, b, m) ==> m != multiset{}
    decreases |es|
  {
    if |es| > 0 {
      forall m | Step(es[0], b, m)
        ensures AsExpected(es[1..], m)
        ensures forall x :: Steps(es[1..], m, x) ==> x != multiset{}
      {
        assert es[0].value in m;
        UpsertsExpected(es[1..], m);
      }
    }
  }

  /** Upserts of a key that is there, with any flags. */
  lemma {:induction false} UpsertsSteady(es: seq<Edit>, b: Values)
    requires forall j :: 0 <= j < |es| ==> es[j].op == UPSERT
    requires b != multiset{}
    ensures Steady(es, b)
    decreases |es|
  {
    hide Step, Steps, AsExpected;
    forall a | 0 <= a <= |es|
      ensures SteadySplit(es, b, a)
    {
      UpsertsExpected(es[a..], b);
      if a < |es| {
        forall m | Steps(es[a..], b, m)
          ensures Steady(es[..a], m)
        {
          UpsertsSteady(es[..a], m);
        }
      }
    }
  }

  predicate IdleRemoval(e: Edit) {
    (e.op == REMOVE_KEY || e.op == REMOVE_KV) && !e.guaranteed
  }

  lemma {:induction false} RemovalsExpected(es: seq<Edit>)
    requires forall j :: 0 <= j < |es| ==> IdleRemoval(es[j])
    ensures AsExpected(es, multiset{})
    ensures forall m :: Steps(es, multiset{}, m) ==> m == multiset{}
    decreases |es|
  {
    if |es| > 0 {
      forall m | Step(es[0], multiset{}, m)
        ensures AsExpected(es[1..], m)
        ensures forall x :: Steps(es[1..], m, x) ==> x == multiset{}
      {
        assert m == multiset{};
        RemovalsExpected(es[1..]);
      }
    }
  }

  /** Removals, not guaranteed, of a key that is not there. */
  lemma {:induction false} RemovalsSteady(es: seq<Edit>)
    requires forall j :: 0 <= j < |es| ==> IdleRemoval(es[j])
    ensures Steady(es, multiset{})
    decreases |es|
  {
    hide Step, Steps, AsExpected;
    forall a | 0 <= a <= |es|
      ensures SteadySplit(es, multiset{}, a)
    {
      RemovalsExpected(es[a..]);
      if a < |es| {
        RemovalsSteady(es[..a]);
      }
    }
  }

  // ---------------------------------------------------------------- counts under deep edits

  lemma {:induction false} SumSet(bs: seq<Branch>, i: nat, b: Branch)
    requires i < |bs|
    ensures BranchSum(bs[i := b]) == BranchSum(bs) - bs[i].count + b.count
  {
    if i > 0 {
      assert bs[i := b][1..] == bs[1..][i - 1 := b];
      SumSet(bs[1..], i - 1, b);
    } else {
      assert bs[0 := b][1..] == bs[1..];
    }
  }

  /** A deep edit changes the count at every level by what it does to the bag of its key. */
  lemma {:induction false} DeepCount(n: Node, e: Edit, lo: Option<Key>, hi: Option<Key>)
    requires Ordered(n, lo, hi) && Counted(n)
    ensures ItemCount(Apply(n, e, true)) == ItemCount(n) + Effect(e, Held(n, e.key))
    decreases n
  {
    match n
    case Leaf(l) =>
      Leaves.ApplyStep(l, e, e.key);
      Leaves.ApplyCounts(l, e);
      StepEffect(e, Leaves.LeafBag(l, e.key), Leaves.LeafBag(Leaves.Edited(l, e), e.key));
    case Internal(bs, q) =>
      var i := Route(bs, e.key);
      DeepCount(bs[i].child, e, Lo(bs, i, lo), Hi(bs, i, hi));
      SumSet(bs, i, SetChild(bs, i, Apply(bs[i].child, e, true))[i]);
  }

  /** The edits of every key, run from what its leaf holds, do what is expected. */
  ghost predicate BatchExpected(n: Node, es: seq<Edit>) {
    forall k :: AsExpected(EditsOn(es, k), Held(n, k))
  }

  lemma BatchOn(n: Node, es: seq<Edit>, lo: Option<Key>, hi: Option<Key>)
    requires Ordered(n, lo, hi) && |es| > 0 && BatchExpected(n, es)
    ensures Effect(es[0], Held(n, es[0].key)) == Expected(es[0])
    ensures BatchExpected(Apply(n, es[0], true), es[1..])
  {
    hide Ordered, Held, Apply, Effect, Step;
    var e := es[0];
    assert EditsOn(es, e.key)[0] == e;
    assert AsExpected(EditsOn(es, e.key), Held(n, e.key));
    forall k
      ensures AsExpected(EditsOn(es[1..], k), Held(Apply(n, e, true), k))
    {
      DeepMeans(n, e, k, lo, hi);
      assert AsExpected(EditsOn(es, k), Held(n, k));
      assert EditsOn(es, k) == If(e, k) + EditsOn(es[1..], k);
      if k == e.key {
        assert EditsOn(es, k)[1..] == EditsOn(es[1..], k);
      } else {
        assert EditsOn(es, k) == EditsOn(es[1..], k);
      }
    }
  }

  lemma {:induction false} ManyDeepCount(n: Node, es: seq<Edit>, lo: Option<Key>, hi: Option<Key>)
    requires Ordered(n, lo, hi) && EditsWithin(es, lo, hi) && Counted(n) && BatchExpected(n, es)
    ensures ItemCount(ApplyMany(n, es, true)) == ItemCount(n) + GuaranteedDeltas(es)
    decreases |es|
  {
    hide Ordered, Counted, BatchExpected, Held, Apply, ItemCount, Effect;
    if |es| > 0 {
      BatchOn(n, es, lo, hi);
      DeepCount(n, es[0], lo, hi);
      ApplyOrdered(n, es[0], true, lo, hi);
      ApplyCounted(n, es[0], true);
      ManyDeepCount(Apply(n, es[0], true), es[1..], lo, hi);
    }
  }

  // ---------------------------------------------------------------- steady trees

  ghost predicate Firm(n: Node, lo: Option<Key>, hi: Option<Key>) {
    forall k :: Within(lo, hi, k) ==> Steady(Pending(n, k), Held(n, k))
  }

  /** The batch for branch i, and what waits in and below the branch, for a key of the branch. */
  lemma BranchSteady(n: Node, i: nat, lo: Option<Key>, hi: Option<Key>, k: Key)
    requires n.Internal? && Ordered(n, lo, hi) && i < |n.branches| && Firm(n, lo, hi)
    requires Within(Lo(n.branches, i, lo), Hi(n.branches, i, hi), k)
    ensures var c := n.branches[i].child;
            Steady(Pending(c, k) + EditsOn(Range(n.branches, n.queue, i), k), Held(c, k))
  {
    hide Ordered, Range, Steady, Pending, Held;
    OrderedParts(n, lo, hi);
    RangeInside(n.branches, lo, hi, i, k);
    RouteIs(n.branches, lo, hi, k, i);
    RangeOn(n.branches, n.queue, lo, hi, i, k);
    BelowPends(n, k);
  }

  /** What is queued for branch i and what waits below is steady, in the order seek will find it in. */
  ghost predicate FirmAt(n: Node, i: nat, lo: Option<Key>, hi: Option<Key>)
    requires n.Internal? && i < |n.branches|
  {
    var c, es := n.branches[i].child, Range(n.branches, n.queue, i);
    forall k :: Within(Lo(n.branches, i, lo), Hi(n.branches, i, hi), k) ==>
      if AllGuaranteed(es) then Steady(Pending(c, k) + EditsOn(es, k), Held(c, k))
      else forall m :: Steps(EditsOn(es, k), Held(c, k), m) ==> Steady(Pending(c, k), m)
  }

  lemma FirmBranch(n: Node, i: nat, lo: Option<Key>, hi: Option<Key>)
    requires n.Internal? && Ordered(n, lo, hi) && i < |n.branches| && Firm(n, lo, hi)
    ensures FirmAt(n, i, lo, hi)
  {
    hide Ordered, Range, Steady, Pending, Held, Firm, Steps, AllGuaranteed;
    var c, es := n.branches[i].child, Range(n.branches, n.queue, i);
    forall k | Within(Lo(n.branches, i, lo), Hi(n.branches, i, hi), k)
      ensures Steady(Pending(c, k) + EditsOn(es, k), Held(c, k))
      ensures forall m :: Steps(EditsOn(es, k), Held(c, k), m) ==> Steady(Pending(c, k), m)
    {
      BranchSteady(n, i, lo, hi, k);
      SteadyParts(Pending(c, k), EditsOn(es, k), Held(c, k));
    }
  }

  /** A child is steady after the look. */
  lemma FirmLooked(n: Node, i: nat, lo: Option<Key>, hi: Option<Key>)
    requires n.Internal? && Ordered(n, lo, hi) && i < |n.branches| && n.branches[i].child.Internal?
    requires FirmAt(n, i, lo, hi)
    ensures Firm(Looked(n.branches, n.queue, i), Lo(n.branches, i, lo), Hi(n.branches, i, hi))
  {
    hide Ordered, Range, Steady, Pending, Held, Steps, AllGuaranteed, ApplyMany;
    var c, es := n.branches[i].child, Range(n.branches, n.queue, i);
    OrderedParts(n, lo, hi);
    RangeWithin(n.branches, n.queue, lo, hi, i);
    ChildInOrder(n, i, lo, hi);
    forall k | Within(Lo(n.branches, i, lo), Hi(n.branches, i, hi), k)
      ensures Steady(Pending(Looked(n.branches, n.queue, i), k), Held(Looked(n.branches, n.queue, i), k))
    {
      if AllGuaranteed(es) {
        ManyShallowPends(c, es, k);
      } else {
        ManyDeepMeans(c, es, k, Lo(n.branches, i, lo), Hi(n.branches, i, hi));
      }
    }
  }

  lemma FirmSettled(n: Node, i: nat, lo: Option<Key>, hi: Option<Key>)
    requires n.Internal? && Ordered(n, lo, hi) && i < |n.branches| && n.branches[i].child.Internal? && Firm(n, lo, hi)
    ensures Firm(Settled(n.branches, n.queue, i), Lo(n.branches, i, lo), Hi(n.branches, i, hi))
  {
    hide Ordered, Range, Steady, Pending, Held, ApplyMany;
    OrderedParts(n, lo, hi);
    forall k | Within(Lo(n.branches, i, lo), Hi(n.branches, i, hi), k)
      ensures Steady(Pending(Settled(n.branches, n.queue, i), k), Held(Settled(n.branches, n.queue, i), k))
    {
      BranchSteady(n, i, lo, hi, k);
      ManyShallowPends(n.branches[i].child, Range(n.branches, n.queue, i), k);
    }
  }

  /** The batch itself does what is expected. */
  lemma FirmBatch(n: Node, i: nat, lo: Option<Key>, hi: Option<Key>)
    requires n.Internal? && Ordered(n, lo, hi) && i < |n.branches| && Firm(n, lo, hi)
    ensures BatchExpected(n.branches[i].child, Range(n.branches, n.queue, i))
  {
    hide Ordered, Range, Steady, Pending, Held, Firm;
    OrderedParts(n, lo, hi);
    RangeWithin(n.branches, n.queue, lo, hi, i);
    var c, es := n.branches[i].child, Range(n.branches, n.queue, i);
    forall k
      ensures AsExpected(EditsOn(es, k), Held(c, k))
    {
      if Within(Lo(n.branches, i, lo), Hi(n.branches, i, hi), k) {
        BranchSteady(n, i, lo, hi, k);
        SteadyParts(Pending(c, k), EditsOn(es, k), Held(c, k));
      } else {
        EditsOnNone(es, k);
        NoneExpected(Held(c, k));
      }
    }
  }

  lemma NoneExpected(b: Values)
    ensures AsExpected([], b)
  {
  }

  lemma {:induction false} NoSlack(n: Node, lo: Option<Key>, hi: Option<Key>)
    requires Ordered(n, lo, hi) && Counted(n) && Firm(n, lo, hi)
    ensures Slack(n) == 0
    decreases Height(n), 1, 0
  {
    hide Ordered, Counted, Firm, BranchSlack;
    if n.Internal? {
      NoSlackFrom(n, 0, lo, hi);
    }
  }

  lemma {:induction false} NoSlackFrom(n: Node, i: nat, lo: Option<Key>, hi: Option<Key>)
    requires n.Internal? && Ordered(n, lo, hi) && Counted(n) && Firm(n, lo, hi) && i <= |n.branches|
    ensures SlackFrom(n.branches, n.queue, i) == 0
    decreases Height(n), 0, 1 + |n.branches| - i
  {
    hide Ordered, Counted, Firm, BranchSlack;
    if i < |n.branches| {
      BranchNoSlack(n, i, lo, hi);
      NoSlackFrom(n, i + 1, lo, hi);
    }
  }

  lemma {:induction false} BranchNoSlack(n: Node, i: nat, lo: Option<Key>, hi: Option<Key>)
    requires n.Internal? && Ordered(n, lo, hi) && Counted(n) && Firm(n, lo, hi) && i < |n.branches|
    ensures BranchSlack(n.branches, n.queue, i) == 0
    decreases Height(n), 0, 0
  {
    hide Ordered, Firm, Range, BatchExpected;
    var bs, q := n.branches, n.queue;
    var c, es := bs[i].child, Range(bs, q, i);
    match c
    case Leaf(l) =>
      OrderedParts(n, lo, hi);
      RangeWithin(bs, q, lo, hi, i);
      ChildInOrder(n, i, lo, hi);
      FirmBatch(n, i, lo, hi);
      ManyDeepCount(c, es, Lo(bs, i, lo), Hi(bs, i, hi));
      ManyLeafDepth(l, es);
      ManyLeafGain(l, es);
    case Internal(_, _) =>
      SettledOrdered(n, i, lo, hi);
      ManyCounts(c, es, false);
      FirmSettled(n, i, lo, hi);
      NoSlack(Settled(bs, q, i), Lo(bs, i, lo), Hi(bs, i, hi));
  }

  /** The item count of a counted, steady tree is the length of its contents. */
  lemma FirmCount(n: Node, lo: Option<Key>, hi: Option<Key>)
    requires Ordered(n, lo, hi) && Counted(n) && Firm(n, lo, hi)
    ensures ItemCount(n) == |Content(n)|
  {
    hide Ordered, Counted, Firm, Content, Slack;
    NoSlack(n, lo, hi);
    CountIs(n, lo, hi);
  }

  /** And every look, at every level, counts right. */
  lemma {:induction false} FirmCalm(n: Node, lo: Option<Key>, hi: Option<Key>)
    requires Ordered(n, lo, hi) && Parsed(n) && Counted(n) && Firm(n, lo, hi)
    ensures Calm(n)
    decreases Height(n), 1
  {
    hide Ordered, Parsed, Counted, Firm, CalmAt;
    if n.Internal? {
      forall i | 0 <= i < |n.branches|
        ensures CalmAt(n.branches, n.queue, i)
      {
        FirmCalmAt(n, i, lo, hi);
      }
    }
  }

  lemma {:induction false} FirmCalmAt(n: Node, i: nat, lo: Option<Key>, hi: Option<Key>)
    requires n.Internal? && Ordered(n, lo, hi) && Parsed(n) && Counted(n) && Firm(n, lo, hi) && i < |n.branches|
    ensures CalmAt(n.branches, n.queue, i)
    decreases Height(n), 0
  {
    hide Ordered, Parsed, Counted, Firm, Range, AllGuaranteed, Content, FirmAt, BatchExpected, Settled, Looked, Calm;
    var bs, q := n.branches, n.queue;
    FirmBranch(n, i, lo, hi);
    LookedOrdered(n, i, lo, hi);
    LookSteps(n, i, lo, hi);
    if bs[i].child.Leaf? {
      LeafLook(bs, q, i);
      LeafCalm(Looked(bs, q, i));
    } else {
      FirmLooked(n, i, lo, hi);
      LookCounted(n, i);
      FirmCalm(Looked(bs, q, i), Lo(bs, i, lo), Hi(bs, i, hi));
    }
  }

  lemma LeafCalm(n: Node)
    requires n.Leaf?
    ensures Calm(n)
  {
  }

  lemma LookCounted(n: Node, i: nat)
    requires n.Internal? && Counted(n) && i < |n.branches|
    ensures Counted(Looked(n.branches, n.queue, i))
  {
    var es := Range(n.branches, n.queue, i);
    ManyCounts(n.branches[i].child, es, !AllGuaranteed(es));
  }

  /** What the scan compares with is the number of items in the branch, before the look and after it. */
  lemma LookSteps(n: Node, i: nat, lo: Option<Key>, hi: Option<Key>)
    requires n.Internal? && Ordered(n, lo, hi) && Parsed(n) && Counted(n) && Firm(n, lo, hi) && i < |n.branches|
    ensures Term(n.branches, n.queue, i)
         == |Content(Looked(n.branches, n.queue, i))| == |Content(Settled(n.branches, n.queue, i))|
  {
    hide Ordered, Parsed, Firm, Range, AllGuaranteed, Content, FirmAt, BatchExpected, BranchSlack, Slack, ItemCount;
    var bs, q := n.branches, n.queue;
    var c, es := bs[i].child, Range(bs, q, i);
    BranchCountIs(n, i, lo, hi);
    BranchNoSlack(n, i, lo, hi);
    if AllGuaranteed(es) {
      GuaranteedLook(bs, q, i);
    } else {
      OrderedParts(n, lo, hi);
      RangeWithin(bs, q, lo, hi, i);
      ChildInOrder(n, i, lo, hi);
      FirmBatch(n, i, lo, hi);
      StoredCount(n, i);
      ManyDeepCount(c, es, Lo(bs, i, lo), Hi(bs, i, hi));
      LookedCount(n, i, lo, hi);
    }
  }

  lemma LookedCount(n: Node, i: nat, lo: Option<Key>, hi: Option<Key>)
    requires n.Internal? && Ordered(n, lo, hi) && Parsed(n) && Counted(n) && Firm(n, lo, hi) && i < |n.branches|
    ensures ItemCount(Looked(n.branches, n.queue, i)) == |Content(Looked(n.branches, n.queue, i))|
  {
    hide Ordered, Parsed, Counted, Firm, Range, AllGuaranteed, Content, FirmAt, Settled, Looked, ItemCount;
    if n.branches[i].child.Leaf? {
      LeafLook(n.branches, n.queue, i);
    } else {
      LookedOrdered(n, i, lo, hi);
      FirmBranch(n, i, lo, hi);
      FirmLooked(n, i, lo, hi);
      LookCounted(n, i);
      FirmCount(Looked(n.branches, n.queue, i), Lo(n.branches, i, lo), Hi(n.branches, i, hi));
    }
  }

  // ---------------------------------------------------------------- seek with mixed flags at every level

  /** Seeking in a steady tree: item m, from as many items as before, or no place if there are not so many. */
  lemma FirmSeeks(n: Node, m: nat)
    requires Ordered(n, None, None) && Parsed(n) && Counted(n) && Firm(n, None, None)
    ensures var (t, place) := Seek(n, m, None, None);
            && |Content(t)| == |Content(n)| && (place.Some? <==> m < |Content(n)|)
            && (place.Some? ==> Stands(t, place.value) && ItemAt(t, place.value) == Some(Content(t)[m]))
  {
    hide Ordered, Parsed, Counted, Firm, Content, Seek, Stands, AtLeaf, Offset, ItemAt, Calm;
    FirmCalm(n, None, None);
    CalmReads(n, m, None, None);
    SeekStands(n, m, None, None);
    var (t, place) := Seek(n, m, None, None);
    if place.Some? {
      OffsetIsItem(t, place.value);
    }
  }

  /** A branch of the root with any batch: looked at, it is steady below,
    or its guaranteed edits keep their promises. */
  ghost predicate Trusted(n: Node, i: nat, lo: Option<Key>, hi: Option<Key>)
    requires n.Internal? && i < |n.branches|
  {
    KeptAt(n, i, lo, hi) || (n.branches[i].child.Internal? && FirmAt(n, i, lo, hi))
  }

  lemma TrustedSure(n: Node, i: nat, lo: Option<Key>, hi: Option<Key>)
    requires n.Internal? && Ordered(n, lo, hi) && Parsed(n) && Counted(n) && i < |n.branches| && Trusted(n, i, lo, hi)
    ensures SureAt(n.branches, n.queue, i)
  {
    hide Ordered, Parsed, KeptAt, FirmAt, Content, Range, AllGuaranteed, Firm, Counted, Calm, Looked;
    var bs, q := n.branches, n.queue;
    if KeptAt(n, i, lo, hi) {
      KeptSure(n, i, lo, hi);
    } else {
      LookedOrdered(n, i, lo, hi);
      FirmLooked(n, i, lo, hi);
      LookCounted(n, i);
      FirmCalm(Looked(bs, q, i), Lo(bs, i, lo), Hi(bs, i, hi));
      FirmCount(Looked(bs, q, i), Lo(bs, i, lo), Hi(bs, i, hi));
      if AllGuaranteed(Range(bs, q, i)) {
        StoredLook(n, i);
      }
    }
  }

  lemma StoredLook(n: Node, i: nat)
    requires n.Internal? && Counted(n) && i < |n.branches| && n.branches[i].child.Internal?
    requires AllGuaranteed(Range(n.branches, n.queue, i))
    ensures Term(n.branches, n.queue, i) == ItemCount(Looked(n.branches, n.queue, i))
  {
    hide Range, AllGuaranteed;
    GuaranteedLook(n.branches, n.queue, i);
    ManyShallowCount(n.branches[i].child, Range(n.branches, n.queue, i));
  }

  /**
   * seek(m) on a tree of any height, with edits of any flags queued at the root
   * and below: it reads item m of the contents, and finds no place if and only
   * if there are not so many items.
   */
  lemma TrustedSeeks(n: Node, m: nat)
    requires Ordered(n, None, None) && Parsed(n) && Counted(n)
    requires n.Internal? ==> forall i :: 0 <= i < |n.branches| ==> Trusted(n, i, None, None)
    ensures var (t, place) := Seek(n, m, None, None);
            && (place.Some? <==> m < |Content(t)|)
            && (place.Some? ==> Stands(t, place.value) && ItemAt(t, place.value) == Some(Content(t)[m]))
  {
    hide Ordered, Parsed, Counted, Trusted, SureAt, Content, Seek, Stands, AtLeaf, Offset, ItemAt;
    if n.Internal? {
      forall i | 0 <= i < |n.branches|
        ensures SureAt(n.branches, n.queue, i)
      {
        TrustedSure(n, i, None, None);
      }
    }
    SeekReads(n, m, None, None);
  }
}
