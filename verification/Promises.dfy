/**
 * Trees with mixed flags.  Seek applies edits that are not guaranteed deep,
 * past the guaranteed ones that wait below: when those keep what they promise.
 */
module Promises {
  import opened Types
  import opened Multimap
  import opened Tree
  import opened Meaning
  import opened Lookup
  import opened Contents
  import opened Counting
  import opened Merging
  import opened Swapping
  import opened Flushing
  import opened Seeking
  import opened Standing
  import opened Trust
  import opened Cursors
  import opened Scanning
  import Leaves
  import Overflow

  // ---------------------------------------------------------------- one promise, one edit run before it

  /** The pairs of edits of one key for which p keeps its promise although e is run first. */
  predicate Spares(p: Edit, e: Edit) {
    match p.op
    case INSERT => true
    case UPSERT => e.op == INSERT || e.op == UPSERT
    case REMOVE_KEY => e.op == INSERT || e.op == UPSERT
    case REMOVE_KV =>
      e.op == INSERT || (e.op == UPSERT && e.value == p.value) || (e.op == REMOVE_KV && e.value != p.value)
  }

  ghost predicate StillEffective(p: Edit, e: Edit) {
    forall b, m :: Effective(p, b) && Step(e, b, m) ==> Effective(p, m)
  }

  lemma SparesHolds(p: Edit, e: Edit, b: Values, m: Values)
    requires Spares(p, e) && Effective(p, b) && Step(e, b, m)
    ensures Effective(p, m)
  {
    if e.op == UPSERT && b != multiset{} {
      var x :| x in b && m == b - multiset{x} + multiset{e.value};
      assert e.value in m;
    }
  }

  /** A bag on which p would find what it needs, and does not find it after e. */
  lemma SparesNot(p: Edit, e: Edit)
    requires !Spares(p, e)
    ensures !StillEffective(p, e)
  {
    var v := if p.op == REMOVE_KV then p.value else if e.op == REMOVE_KV then e.value else [];
    var b: Values := multiset{v};
    var m: Values := if e.op == UPSERT then multiset{e.value} else multiset{};
    assert v in b && b - multiset{v} == multiset{} && multiset{} + multiset{e.value} == multiset{e.value};
    assert Effective(p, b) && Step(e, b, m) && !Effective(p, m);
  }

  /** The table is exact. */
  lemma SparesExact(p: Edit, e: Edit)
    ensures StillEffective(p, e) <==> Spares(p, e)
  {
    hide Step, Effective, Spares;
    if Spares(p, e) {
      forall b, m | Effective(p, b) && Step(e, b, m)
        ensures Effective(p, m)
      {
        SparesHolds(p, e, b, m);
      }
    } else {
      SparesNot(p, e);
    }
  }

  /** Each of these may be swapped with e, and keeps its promise after it. */
  predicate AllSpared(ps: seq<Edit>, e: Edit) {
    forall i :: 0 <= i < |ps| ==> Harmless(ps[i], e) && (ps[i].guaranteed ==> Spares(ps[i], e))
  }

  lemma {:induction false} TruthfulDeep(ps: seq<Edit>, e: Edit, b: Values, m: Values)
    requires AllSpared(ps, e) && Truthful(ps, b) && Step(e, b, m)
    ensures Truthful(ps, m)
  {
    hide Step, Effective, Spares, Harmless;
    if |ps| > 0 {
      var p := ps[0];
      if p.guaranteed {
        SparesHolds(p, e, b, m);
      }
      forall x | Step(p, m, x)
        ensures Truthful(ps[1..], x)
      {
        ThenVia(e, p, b, m, x);
        Swap(p, e, b, x);
        var y :| Step(p, b, y) && Step(e, y, x);
        TruthfulDeep(ps[1..], e, y, x);
      }
    }
  }

  lemma {:induction false} TruthfulDeepMany(ps: seq<Edit>, es: seq<Edit>, b: Values, m: Values)
    requires forall j :: 0 <= j < |es| ==> AllSpared(ps, es[j])
    requires Truthful(ps, b) && Steps(es, b, m)
    ensures Truthful(ps, m)
    decreases |es|
  {
    hide Step, AllSpared, Truthful;
    if |es| > 0 {
      var x :| Step(es[0], b, x) && Steps(es[1..], x, m);
      TruthfulDeep(ps, es[0], b, x);
      TruthfulDeepMany(ps, es[1..], x, m);
    }
  }

  // ---------------------------------------------------------------- what a deep batch leaves

  lemma {:induction false} ManyDeepMeans(n: Node, es: seq<Edit>, k: Key, lo: Option<Key>, hi: Option<Key>)
    requires Ordered(n, lo, hi) && EditsWithin(es, lo, hi)
    ensures Pending(ApplyMany(n, es, true), k) == Pending(n, k)
    ensures Steps(EditsOn(es, k), Held(n, k), Held(ApplyMany(n, es, true), k))
    decreases |es|
  {
    hide Ordered, Pending, Held, Step;
    if |es| > 0 {
      var e := es[0];
      var c := Apply(n, e, true);
      DeepMeans(n, e, k, lo, hi);
      ApplyOrdered(n, e, true, lo, hi);
      ManyDeepMeans(c, es[1..], k, lo, hi);
      if k == e.key {
        StepsOne(e, Held(n, k), Held(c, k));
      }
      StepsJoin(If(e, k), EditsOn(es[1..], k), Held(n, k), Held(c, k), Held(ApplyMany(n, es, true), k));
    }
  }

  /**
   * The edits `ps` waiting below are guaranteed, and keep their promises on `b`:
   * before the batch `es`, which does so too, or after all of it when it goes deep.
   */
  ghost predicate Kept(ps: seq<Edit>, es: seq<Edit>, b: Values, deep: bool) {
    && AllGuaranteed(ps)
    && if deep then forall m :: Steps(es, b, m) ==> Truthful(ps, m) else Truthful(ps + es, b)
  }

  /** They do if they do in the order of arrival, and the batch does harm to none of them. */
  lemma SparedKept(ps: seq<Edit>, es: seq<Edit>, b: Values)
    requires AllGuaranteed(ps) && Truthful(ps + es, b)
    requires forall j :: 0 <= j < |es| ==> AllSpared(ps, es[j])
    ensures Kept(ps, es, b, true)
  {
    hide AllSpared, Steps, Truthful;
    TruthfulPrefix(ps, es, b);
    forall m | Steps(es, b, m)
      ensures Truthful(ps, m)
    {
      TruthfulDeepMany(ps, es, b, m);
    }
  }

  /** For every key of branch i. */
  ghost predicate KeptAt(n: Node, i: nat, lo: Option<Key>, hi: Option<Key>)
    requires n.Internal? && i < |n.branches|
  {
    var c, es := n.branches[i].child, Range(n.branches, n.queue, i);
    forall k :: Within(Lo(n.branches, i, lo), Hi(n.branches, i, hi), k) ==>
      Kept(Pending(c, k), EditsOn(es, k), Held(c, k), !AllGuaranteed(es))
  }

  lemma {:induction false} GuaranteedOn(es: seq<Edit>, k: Key)
    requires AllGuaranteed(es)
    ensures AllGuaranteed(EditsOn(es, k))
  {
    EditsOnAre(es, k);
  }

  lemma JoinGuaranteed(a: seq<Edit>, b: seq<Edit>)
    requires AllGuaranteed(a) && AllGuaranteed(b)
    ensures AllGuaranteed(a + b)
  {
  }

  lemma LookedHonestAt(n: Node, i: nat, lo: Option<Key>, hi: Option<Key>, k: Key)
    requires n.Internal? && Ordered(n, lo, hi) && i < |n.branches| && n.branches[i].child.Internal?
    requires KeptAt(n, i, lo, hi) && Within(Lo(n.branches, i, lo), Hi(n.branches, i, hi), k)
    ensures HonestAt(Looked(n.branches, n.queue, i), k)
  {
    hide Ordered, Pending, Held, Range, Steps, Truthful, AllGuaranteed;
    var c, es := n.branches[i].child, Range(n.branches, n.queue, i);
    OrderedParts(n, lo, hi);
    RangeWithin(n.branches, n.queue, lo, hi, i);
    assert Kept(Pending(c, k), EditsOn(es, k), Held(c, k), !AllGuaranteed(es));
    if AllGuaranteed(es) {
      ManyShallowPends(c, es, k);
      GuaranteedOn(es, k);
      JoinGuaranteed(Pending(c, k), EditsOn(es, k));
    } else {
      ChildInOrder(n, i, lo, hi);
      ManyDeepMeans(c, es, k, Lo(n.branches, i, lo), Hi(n.branches, i, hi));
    }
  }

  lemma ChildInOrder(n: Node, i: nat, lo: Option<Key>, hi: Option<Key>)
    requires n.Internal? && Ordered(n, lo, hi) && i < |n.branches|
    ensures Ordered(n.branches[i].child, Lo(n.branches, i, lo), Hi(n.branches, i, hi))
  {
  }

  /** After the look an internal child is honest and counted. */
  lemma LookedHonest(n: Node, i: nat, lo: Option<Key>, hi: Option<Key>)
    requires n.Internal? && Ordered(n, lo, hi) && Counted(n) && i < |n.branches| && n.branches[i].child.Internal?
    requires KeptAt(n, i, lo, hi)
    ensures var c := Looked(n.branches, n.queue, i);
            Counted(c) && Honest(c, Lo(n.branches, i, lo), Hi(n.branches, i, hi))
  {
    hide Ordered, HonestAt, Range, AllGuaranteed, KeptAt, ApplyMany;
    var es := Range(n.branches, n.queue, i);
    ManyCounts(n.branches[i].child, es, !AllGuaranteed(es));
    forall k | Within(Lo(n.branches, i, lo), Hi(n.branches, i, hi), k)
      ensures HonestAt(Looked(n.branches, n.queue, i), k)
    {
      LookedHonestAt(n, i, lo, hi, k);
    }
  }

  lemma LeafKept(n: Node, i: nat, lo: Option<Key>, hi: Option<Key>)
    requires n.Internal? && Ordered(n, lo, hi) && i < |n.branches| && n.branches[i].child.Leaf?
    requires KeptAt(n, i, lo, hi) && AllGuaranteed(Range(n.branches, n.queue, i))
    ensures SettlesHonestly(n, i)
  {
    hide Ordered, Range, Truthful, AllGuaranteed;
    var c, es := n.branches[i].child, Range(n.branches, n.queue, i);
    OrderedParts(n, lo, hi);
    RangeWithin(n.branches, n.queue, lo, hi, i);
    forall k
      ensures Truthful(EditsOn(es, k), Leaves.LeafBag(c.leaf, k))
    {
      if Within(Lo(n.branches, i, lo), Hi(n.branches, i, hi), k) {
        assert Kept(Pending(c, k), EditsOn(es, k), Held(c, k), false);
        assert [] + EditsOn(es, k) == EditsOn(es, k);
      } else {
        EditsOnNone(es, k);
        NoneTruthful(Leaves.LeafBag(c.leaf, k));
      }
    }
  }

  lemma NoneTruthful(b: Values)
    ensures Truthful([], b)
  {
  }

  lemma KeptSure(n: Node, i: nat, lo: Option<Key>, hi: Option<Key>)
    requires n.Internal? && Ordered(n, lo, hi) && Parsed(n) && Counted(n) && i < |n.branches| && KeptAt(n, i, lo, hi)
    ensures SureAt(n.branches, n.queue, i)
  {
    hide Ordered, Parsed, Content, Range, AllGuaranteed, KeptAt, Counted, Honest;
    var bs, q := n.branches, n.queue;
    LookedOrdered(n, i, lo, hi);
    if bs[i].child.Leaf? {
      LeafLook(bs, q, i);
      if AllGuaranteed(Range(bs, q, i)) {
        LeafKept(n, i, lo, hi);
        GuaranteedLook(bs, q, i);
        StoredCount(n, i);
        SettledCount(n, i);
      }
    } else {
      LookedHonest(n, i, lo, hi);
      HonestCalm(Looked(bs, q, i), Lo(bs, i, lo), Hi(bs, i, hi));
      ContentCount(Looked(bs, q, i), Lo(bs, i, lo), Hi(bs, i, hi));
      if AllGuaranteed(Range(bs, q, i)) {
        GuaranteedLook(bs, q, i);
        StoredCount(n, i);
        ManyShallowCount(bs[i].child, Range(bs, q, i));
      }
    }
  }

  lemma StoredCount(n: Node, i: nat)
    requires n.Internal? && Counted(n) && i < |n.branches|
    ensures n.branches[i].count == ItemCount(n.branches[i].child)
  {
  }

  /**
   * pendingRankDelta on a child of any height, with any flags in the batch: the
   * stored count and the reported delta are the number of items then in the
   * child, if the guaranteed edits below keep their promises after the batch.
   */
  lemma DeltaCounts(n: Node, i: nat, lo: Option<Key>, hi: Option<Key>)
    requires n.Internal? && Ordered(n, lo, hi) && Parsed(n) && Counted(n) && i < |n.branches| && KeptAt(n, i, lo, hi)
    ensures var (t, delta) := RankDelta(n, i, lo, hi);
            t.branches[i].count + delta == |Content(Settled(t.branches, t.queue, i))|
  {
    hide Ordered, Parsed, Content, RankDelta, Settled, Looked, Term, Counted, KeptAt, Calm;
    Looks(n, i, lo, hi);
    KeptSure(n, i, lo, hi);
  }

  ghost predicate Mixed(n: Node, lo: Option<Key>, hi: Option<Key>) {
    n.Internal? ==> forall i :: 0 <= i < |n.branches| ==> KeptAt(n, i, lo, hi)
  }

  // ---------------------------------------------------------------- the condition, key by key

  /**
   * Before the call: all edits of the key keep their promises in the order of
   * arrival, those below the root are guaranteed, and where its batch goes deep
   * each edit of the key in it spares them.
   */
  ghost predicate SparedAt(n: Node, k: Key)
    requires n.Internal? && |n.branches| > 0
  {
    var i := Route(n.branches, k);
    var ps, es := Pending(n.branches[i].child, k), EditsOn(n.queue, k);
    && AllGuaranteed(ps) && Truthful(Pending(n, k), Held(n, k))
    && (!AllGuaranteed(Range(n.branches, n.queue, i)) ==> forall j :: 0 <= j < |es| ==> AllSpared(ps, es[j]))
  }

  lemma SparedMixed(n: Node, lo: Option<Key>, hi: Option<Key>)
    requires n.Internal? && Ordered(n, lo, hi)
    requires forall k :: Within(lo, hi, k) ==> |n.branches| > 0 && SparedAt(n, k)
    ensures Mixed(n, lo, hi)
  {
    hide Ordered, Pending, Held, Range, Truthful, Steps, AllGuaranteed, AllSpared;
    OrderedParts(n, lo, hi);
    forall i, k | 0 <= i < |n.branches| && Within(Lo(n.branches, i, lo), Hi(n.branches, i, hi), k)
      ensures var c, es := n.branches[i].child, Range(n.branches, n.queue, i);
              Kept(Pending(c, k), EditsOn(es, k), Held(c, k), !AllGuaranteed(es))
    {
      RangeInside(n.branches, lo, hi, i, k);
      RouteIs(n.branches, lo, hi, k, i);
      RangeOn(n.branches, n.queue, lo, hi, i, k);
      assert SparedAt(n, k);
      BelowPends(n, k);
      var c := n.branches[i].child;
      if !AllGuaranteed(Range(n.branches, n.queue, i)) {
        SparedKept(Pending(c, k), EditsOn(n.queue, k), Held(c, k));
      }
    }
  }

  lemma BelowPends(n: Node, k: Key)
    requires n.Internal? && |n.branches| > 0
    ensures var c := n.branches[Route(n.branches, k)].child;
            Pending(n, k) == Pending(c, k) + EditsOn(n.queue, k) && Held(n, k) == Held(c, k)
  {
  }

  /**
   * seek(m) on a tree of any height that has edits with any flags queued at its
   * root: it reads item m of the contents, and finds no place if and only if there
   * are not so many items.
   */
  lemma MixedSeeks(n: Node, m: nat)
    requires n.Internal? && Ordered(n, None, None) && Parsed(n) && Counted(n) && |n.branches| > 0
    requires forall k :: SparedAt(n, k)
    ensures var (t, place) := Seek(n, m, None, None);
            && (place.Some? <==> m < |Content(t)|)
            && (place.Some? ==> Stands(t, place.value) && AtLeaf(t, place.value.path) && Offset(t, place.value) == m
                                && ItemAt(t, place.value) == Some(Content(t)[m]))
  {
    hide Ordered, Parsed, Counted, KeptAt, SureAt, Content, Seek, Stands, AtLeaf, Offset, ItemAt, SparedAt;
    SparedMixed(n, None, None);
    forall i | 0 <= i < |n.branches|
      ensures SureAt(n.branches, n.queue, i)
    {
      KeptSure(n, i, None, None);
    }
    SeekReads(n, m, None, None);
  }

  // ---------------------------------------------------------------- where a harmless edit breaks a promise

  function OneLeaf(k: Key, v: Value): Node {
    Leaf(Leaves.LeafData([Pair(k, v)], Overflow.End))
  }

  function Waiting(k: Key, v: Value, w: Value): Node {
    Internal([Branch(None, 1, 0, true, OneLeaf(k, v))], [Edit(UPSERT, k, w, true)])
  }

  function Above(k: Key, v: Value, w: Value): Node {
    Internal([Branch(None, 1, 0, true, Waiting(k, v, w))], [Edit(REMOVE_KV, k, v, false)])
  }

  lemma AboveParts(k: Key, v: Value, w: Value)
    ensures var n, c := Above(k, v, w), Waiting(k, v, w);
            && Ordered(n, None, None) && Parsed(n) && Counted(n)
            && Range(n.branches, n.queue, 0) == n.queue && Range(c.branches, c.queue, 0) == c.queue
            && Route(c.branches, k) == 0
  {
    var n, c := Above(k, v, w), Waiting(k, v, w);
    assert GuaranteedDeltas(c.queue) == 0 by { GuaranteedOne(c.queue[0]); }
    assert BranchSum(c.branches) == 1 by { assert c.branches[1..] == []; }
    assert Ordered(OneLeaf(k, v), None, None);
    assert Ordered(c, None, None);
  }

  lemma RemovedAlone(k: Key, v: Value)
    ensures Leaves.Edited(Leaves.LeafData([Pair(k, v)], Overflow.End), Edit(REMOVE_KV, k, v, false))
         == Leaves.LeafData([], Overflow.End)
  {
    var ps := [Pair(k, v)];
    assert Leaves.FirstMatch(ps, k, Some(v), 0) == 0;
    assert ps[..0] + ps[1..] == [];
  }

  lemma UpsertedAlone(k: Key, w: Value)
    ensures Gain(Leaves.LeafData([], Overflow.End), [Edit(UPSERT, k, w, true)]) == 1
  {
    var e := Edit(UPSERT, k, w, true);
    assert Leaves.LeafBag(Leaves.LeafData([], Overflow.End), k) == multiset{};
    assert [e][1..] == [];
  }

  /** What the removal leaves below: an empty leaf, with the guaranteed upsert still waiting. */
  lemma RemovedBelow(k: Key, v: Value, w: Value)
    ensures var c := Apply(Waiting(k, v, w), Edit(REMOVE_KV, k, v, false), true);
            && c.Internal? && c.queue == [Edit(UPSERT, k, w, true)] && |c.branches| == 1
            && c.branches[0].child == Leaf(Leaves.LeafData([], Overflow.End))
            && Range(c.branches, c.queue, 0) == c.queue
  {
    AboveParts(k, v, w);
    RemovedAlone(k, v);
    var c := Waiting(k, v, w);
    var r := Apply(c, Edit(REMOVE_KV, k, v, false), true);
    RangeSame(c.branches, r.branches, c.queue, 0);
  }

  /**
   * The removal of one value, not guaranteed, goes deep past a guaranteed upsert
   * of another. Its answer is right either way and the promise was kept in the
   * order of arrival, but the upsert now adds an item that nothing counts.
   */
  lemma DeltaMiscounts(k: Key, v: Value, w: Value)
    requires v != w
    ensures Harmless(Edit(UPSERT, k, w, true), Edit(REMOVE_KV, k, v, false))
    ensures var n := Above(k, v, w);
            && Ordered(n, None, None) && Parsed(n) && Counted(n)
            && var (t, delta) := RankDelta(n, 0, None, None);
               t.branches[0].count + delta == |Content(Settled(t.branches, t.queue, 0))| - 1
  {
    hide Ordered, Parsed, Counted, Content, RankDelta, Range, Settled, Gain, Apply, Height;
    var n := Above(k, v, w);
    var e := Edit(REMOVE_KV, k, v, false);
    AboveParts(k, v, w);
    Looks(n, 0, None, None);
    TermIs(n, 0, None, None);
    RemovedBelow(k, v, w);
    UpsertedAlone(k, w);
    assert !AllGuaranteed(n.queue) by { assert !n.queue[0].guaranteed; }
    assert Looked(n.branches, n.queue, 0) == Apply(Waiting(k, v, w), e, true) by {
      ManyOne(Waiting(k, v, w), e, true);
    }
    EmptySlack(Apply(Waiting(k, v, w), e, true), k, w);
  }

  lemma ManyOne(n: Node, e: Edit, deep: bool)
    ensures ApplyMany(n, [e], deep) == Apply(n, e, deep)
  {
    assert [e][1..] == [];
  }

  lemma EmptySlack(c: Node, k: Key, w: Value)
    requires c.Internal? && c.queue == [Edit(UPSERT, k, w, true)] && |c.branches| == 1
    requires c.branches[0].child == Leaf(Leaves.LeafData([], Overflow.End))
    requires Range(c.branches, c.queue, 0) == c.queue
    ensures Slack(c) == -1
  {
    hide Range, Gain;
    UpsertedAlone(k, w);
    GuaranteedOne(c.queue[0]);
    assert SlackFrom(c.branches, c.queue, 1) == 0;
    assert SlackFrom(c.branches, c.queue, 0) == BranchSlack(c.branches, c.queue, 0);
  }
}
