/**
 * What seek and rank leave: the tree after them stands for nothing it did not
 * stand for, as far as the edits they apply deep may overtake what waits below.
 */
module Deepening {
  import opened Types
  import opened Multimap
  import opened Tree
  import opened Meaning
  import opened Lookup
  import opened Contents
  import opened Counting
  import opened Swapping
  import opened Flushing
  import opened Seeking
  import opened Ranking
  import opened Standing
  import opened Cursors
  import opened Scanning
  import opened Promises
  import Leaves
  import Overflow

  // ---------------------------------------------------------------- a batch that goes deep

  /** Every edit of the batch may overtake what waits in or below the node. */
  ghost predicate MayPass(n: Node, es: seq<Edit>) {
    forall j :: 0 <= j < |es| ==> AllHarmless(Pending(n, es[j].key), es[j])
  }

  lemma PassNext(n: Node, es: seq<Edit>, lo: Option<Key>, hi: Option<Key>)
    requires Ordered(n, lo, hi) && |es| > 0 && MayPass(n, es)
    ensures AllHarmless(Pending(n, es[0].key), es[0]) && MayPass(Apply(n, es[0], true), es[1..])
  {
    hide Ordered, Pending, Apply, AllHarmless;
    forall j | 0 <= j < |es[1..]|
      ensures AllHarmless(Pending(Apply(n, es[0], true), es[1..][j].key), es[1..][j])
    {
      assert es[1..][j] == es[j + 1];
      DeepMeans(n, es[0], es[j + 1].key, lo, hi);
    }
  }

  lemma {:induction false} ManyDeepStep(n: Node, es: seq<Edit>, k: Key, lo: Option<Key>, hi: Option<Key>, c: Values)
    returns (m: Values)
    requires Ordered(n, lo, hi) && EditsWithin(es, lo, hi) && MayPass(n, es)
    requires Denotes(ApplyMany(n, es, true), k, c)
    ensures Denotes(n, k, m) && Steps(EditsOn(es, k), m, c)
    decreases |es|
  {
    hide Ordered, Denotes, MayPass, AllHarmless, Step;
    if |es| == 0 {
      m := c;
    } else {
      PassNext(n, es, lo, hi);
      ApplyOrdered(n, es[0], true, lo, hi);
      var x := ManyDeepStep(Apply(n, es[0], true), es[1..], k, lo, hi, c);
      m := DeepStep(n, es[0], k, lo, hi, x);
      StepsJoin(If(es[0], k), EditsOn(es[1..], k), m, x, c);
    }
  }

  // ---------------------------------------------------------------- one look

  /** Looking at branch i adds nothing to what the tree stands for: no edit goes deep, or all may pass. */
  ghost predicate MayLook(bs: seq<Branch>, q: seq<Edit>, i: nat)
    requires i < |bs|
  {
    AllGuaranteed(Range(bs, q, i)) || MayPass(bs[i].child, Range(bs, q, i))
  }

  lemma TouchDenotes(n: Node, i: nat, k: Key, c: Values)
    requires n.Internal? && i < |n.branches|
    ensures Denotes(Touch(n, i), k, c) <==> Denotes(n, k, c)
  {
    RouteSame(n.branches, Touch(n, i).branches, k);
  }

  lemma DeepAway(n: Node, i: nat, lo: Option<Key>, hi: Option<Key>, k: Key)
    requires n.Internal? && Ordered(n, lo, hi) && Parsed(n) && i < |n.branches| && Route(n.branches, k) != i
    ensures var r := Push(n, i, lo, hi, true); Pending(r, k) == Pending(n, k) && Held(r, k) == Held(n, k)
  {
    hide Parsed, Ordered, ApplyMany;
    var bs, q, r := n.branches, n.queue, Push(n, i, lo, hi, true);
    OrderedParts(n, lo, hi);
    PendIsRange(n, i, lo, hi);
    RangeOn(bs, q, lo, hi, i, k);
    RouteSame(bs, r.branches, k);
  }

  lemma DeepOnto(n: Node, lo: Option<Key>, hi: Option<Key>, k: Key)
    requires n.Internal? && Ordered(n, lo, hi) && Parsed(n)
    ensures var i := Route(n.branches, k); var r := Push(n, i, lo, hi, true);
            var c := ApplyMany(n.branches[i].child, Range(n.branches, n.queue, i), true);
            && Pending(r, k) == Pending(c, k) && Held(r, k) == Held(c, k)
            && EditsOn(Range(n.branches, n.queue, i), k) == EditsOn(n.queue, k)
  {
    hide Parsed, Ordered, ApplyMany, Apply, EditsOn, Height, Separators, SortedEdits;
    var bs, q, i := n.branches, n.queue, Route(n.branches, k);
    OrderedParts(n, lo, hi);
    var r := Push(n, i, lo, hi, true);
    PendIsRange(n, i, lo, hi);
    RangeOn(bs, q, lo, hi, i, k);
    RouteSame(bs, r.branches, k);
    NonePending(r, i, k);
  }

  lemma NonePending(r: Node, i: nat, k: Key)
    requires r.Internal? && i < |r.branches| && Route(r.branches, k) == i && EditsOn(r.queue, k) == []
    ensures Pending(r, k) == Pending(r.branches[i].child, k) && Held(r, k) == Held(r.branches[i].child, k)
  {
    assert Pending(r, k) == Pending(r.branches[i].child, k) + [];
  }

  /** A batch pushed deep resolves choices but never adds one, if every edit of it may pass. */
  lemma DeepPushStep(n: Node, i: nat, lo: Option<Key>, hi: Option<Key>, k: Key, c: Values)
    requires n.Internal? && Ordered(n, lo, hi) && Parsed(n) && i < |n.branches|
    requires MayPass(n.branches[i].child, Range(n.branches, n.queue, i))
    requires Denotes(Push(n, i, lo, hi, true), k, c)
    ensures Denotes(n, k, c)
  {
    hide Parsed, Ordered, Push, ApplyMany, Steps, Range, MayPass;
    if Route(n.branches, k) == i {
      var child, es := n.branches[i].child, Range(n.branches, n.queue, i);
      OrderedParts(n, lo, hi);
      ChildInOrder(n, i, lo, hi);
      RangeWithin(n.branches, n.queue, lo, hi, i);
      DeepOnto(n, lo, hi, k);
      var m := ManyDeepStep(child, es, k, Lo(n.branches, i, lo), Hi(n.branches, i, hi), c);
      StepsJoin(Pending(child, k), EditsOn(n.queue, k), Held(n, k), m, c);
    } else {
      DeepAway(n, i, lo, hi, k);
    }
  }

  lemma DeltaStep(n: Node, i: nat, lo: Option<Key>, hi: Option<Key>, k: Key, c: Values)
    requires n.Internal? && Ordered(n, lo, hi) && Parsed(n) && i < |n.branches| && MayLook(n.branches, n.queue, i)
    requires Denotes(RankDelta(n, i, lo, hi).0, k, c)
    ensures Denotes(n, k, c)
  {
    hide Parsed, Ordered, Push, Range, MayPass, Denotes, AllGuaranteed, PendingFor;
    var u := Touch(n, i);
    PendingIsRange(n, i, lo, hi);
    assert SameBranches(n.branches, u.branches);
    SameOrdered(n, u, lo, hi);
    SameSettled(n, u, i);
    TouchDenotes(n, i, k, c);
    if !AllGuaranteed(Range(n.branches, n.queue, i)) {
      DeepPushStep(u, i, lo, hi, k, c);
    }
  }

  // ---------------------------------------------------------------- seek

  /** Every look that seek may take, at every level. */
  ghost predicate MayScan(n: Node)
    decreases Height(n), 1
  {
    n.Internal? ==> forall i :: 0 <= i < |n.branches| ==> MayScanAt(n.branches, n.queue, i)
  }

  ghost predicate MayScanAt(bs: seq<Branch>, q: seq<Edit>, i: nat)
    requires i < |bs|
    decreases 1 + MaxHeight(bs), 0
  {
    LookedHeight(bs, q, i);
    MayLook(bs, q, i) && MayScan(Looked(bs, q, i))
  }

  ghost predicate MayScanFrom(n: Node, i: nat)
    requires n.Internal?
  {
    forall j :: i <= j < |n.branches| ==> MayScanAt(n.branches, n.queue, j)
  }

  lemma ScanTurns(n: Node, i: nat, t: Node)
    requires n.Internal? && i < |n.branches| && Turns(n, i, t) && MayScanFrom(n, i)
    ensures t.Internal? && |t.branches| == |n.branches| && Height(t) == Height(n)
    ensures MayLook(n.branches, n.queue, i) && MayScan(Looked(n.branches, n.queue, i)) && MayScanFrom(t, i + 1)
  {
    hide MayScan, MayPass, AllGuaranteed, Range, ApplyMany;
    assert MayScanAt(n.branches, n.queue, i);
    forall j | i < j < |t.branches|
      ensures MayScanAt(t.branches, t.queue, j)
    {
      assert MayScanAt(n.branches, n.queue, j);
      assert t.branches[j] == n.branches[j];
    }
  }

  lemma LeafSeekStep(n: Node, m: int, lo: Option<Key>, hi: Option<Key>, k: Key, c: Values)
    requires n.Leaf?
    ensures Denotes(Seek(n, m, lo, hi).0, k, c) <==> Denotes(n, k, c)
  {
  }

  /**
   * Seeking never changes what the tree means where the edits it applies deep
   * may pass: it denotes nothing it did not denote before.
   */
  lemma {:induction false} SeekStep(n: Node, m: int, lo: Option<Key>, hi: Option<Key>, k: Key, c: Values)
    requires Ordered(n, lo, hi) && Parsed(n) && Within(lo, hi, k) && MayScan(n)
    requires Denotes(Seek(n, m, lo, hi).0, k, c)
    ensures Denotes(n, k, c)
    decreases Height(n), 1, 0
  {
    hide Ordered, Parsed, Denotes, MayScanAt, Within, SeekFrom;
    match n
    case Leaf(_) => LeafSeekStep(n, m, lo, hi, k, c);
    case Internal(_, _) => SeekFromStep(n, 0, m, lo, hi, k, c);
  }

  lemma {:induction false} SeekFromStep(n: Node, i: nat, m: int, lo: Option<Key>, hi: Option<Key>, k: Key, c: Values)
    requires n.Internal? && Ordered(n, lo, hi) && Parsed(n) && Within(lo, hi, k) && MayScanFrom(n, i)
    requires Denotes(SeekFrom(n, i, m, lo, hi).0, k, c)
    ensures Denotes(n, k, c)
    decreases Height(n), 0, if i <= |n.branches| then |n.branches| - i else 0
  {
    hide Ordered, Parsed, Denotes, MayScanFrom, Within, MayScan, MayLook, RankDelta, Push, PutChild, Seek, Turns,
      Looked,
      Term;
    if i < |n.branches| {
      var (t, delta) := RankDelta(n, i, lo, hi);
      Looks(n, i, lo, hi);
      ScanTurns(n, i, t);
      if m < t.branches[i].count + delta {
        SeeksDown(n, i, m, t, delta, lo, hi);
        BelowStep(n, i, m, t, delta, lo, hi, k, c);
      } else {
        SkipsOn(n, i, m, t, delta, lo, hi);
        SeekFromStep(t, i + 1, m - (t.branches[i].count + delta), lo, hi, k, c);
      }
      DeltaStep(n, i, lo, hi, k, c);
    }
  }

  lemma {:induction false} BelowStep(n: Node, i: nat, m: int, t: Node, delta: int, lo: Option<Key>, hi: Option<Key>,
      k: Key, c: Values)
    requires n.Internal? && Ordered(n, lo, hi) && Parsed(n) && Within(lo, hi, k) && i < |n.branches|
    requires (t, delta) == RankDelta(n, i, lo, hi) && MayScan(Looked(n.branches, n.queue, i))
    requires var p := Push(t, i, lo, hi, false);
             var r := Seek(p.branches[i].child, m, ForkLo(t.branches, i, lo), ForkHi(t.branches, i, hi));
             Denotes(PutChild(p, i, r.0), k, c)
    ensures Denotes(t, k, c)
    decreases Height(n), 0, 0
  {
    hide Ordered, Parsed, Denotes, MayScan, RankDelta, Push, PutChild, Seek, Looked, Range, Settled, Route;
    Looks(n, i, lo, hi);
    PushedRange(t, i, lo, hi);
    PushedChild(t, i, lo, hi, false);
    var p := Push(t, i, lo, hi, false);
    var d, flo, fhi := p.branches[i].child, ForkLo(t.branches, i, lo), ForkHi(t.branches, i, hi);
    var r := Seek(d, m, flo, fhi);
    if Route(p.branches, k) == i {
      PushedRoute(t, i, lo, hi, k);
      forall x | Denotes(r.0, k, x)
        ensures Denotes(d, k, x)
      {
        SeekStep(d, m, flo, fhi, k, x);
      }
    }
    PutChildStep(p, i, r.0, k, c);
    PushStep(t, i, lo, hi, k, c);
  }

  // ---------------------------------------------------------------- rank

  /** The looks that rank takes: left of the path, at every level. */
  ghost predicate MayRank(n: Node, p: Place)
    decreases n
  {
    n.Internal? && |p.path| > 0 && p.path[0] < |n.branches| ==>
      && (forall j :: 0 <= j < p.path[0] ==> MayLook(n.branches, n.queue, j))
      && MayRank(n.branches[p.path[0]].child, Place(p.path[1..], p.spot))
  }

  ghost predicate MayLookAt(n: Node, i: nat, upto: nat)
    requires n.Internal?
  {
    forall j :: i <= j < upto && j < |n.branches| ==> MayLook(n.branches, n.queue, j)
  }

  /** The looks at the branches i..upto leave all other branches, and what waits for them. */
  ghost predicate KeepsRest(n: Node, i: nat, upto: nat, t: Node)
    requires n.Internal?
  {
    && t.Internal? && |t.branches| == |n.branches|
    && forall j :: 0 <= j < |n.branches| && !(i <= j < upto) ==>
         t.branches[j] == n.branches[j] && Range(t.branches, t.queue, j) == Range(n.branches, n.queue, j)
  }

  lemma {:induction false} RankedRest(n: Node, i: nat, upto: nat, lo: Option<Key>, hi: Option<Key>)
    requires n.Internal? && Ordered(n, lo, hi) && Parsed(n)
    ensures var t := RankedFrom(n, i, upto, lo, hi);
            && Ordered(t, lo, hi) && Parsed(t) && KeepsRest(n, i, upto, t)
            && forall j :: 0 <= j < |n.branches| ==> t.branches[j].minKey == n.branches[j].minKey
    decreases if i <= |n.branches| then |n.branches| - i else 0
  {
    hide Ordered, Parsed, RankDelta, Range, Looked, Settled;
    if i < upto && i < |n.branches| {
      var t := RankDelta(n, i, lo, hi).0;
      Looks(n, i, lo, hi);
      DeltaSeparators(n, i, lo, hi);
      RankedRest(t, i + 1, upto, lo, hi);
    }
  }

  lemma {:induction false} RankedFromStep(n: Node, i: nat, upto: nat, lo: Option<Key>, hi: Option<Key>, k: Key,
      c: Values)
    requires n.Internal? && Ordered(n, lo, hi) && Parsed(n) && MayLookAt(n, i, upto)
    requires Denotes(RankedFrom(n, i, upto, lo, hi), k, c)
    ensures Denotes(n, k, c)
    decreases if i <= |n.branches| then |n.branches| - i else 0
  {
    hide Ordered, Parsed, RankDelta, Denotes, MayLook, Looked, Settled, Range;
    if i < upto && i < |n.branches| {
      var t := RankDelta(n, i, lo, hi).0;
      Looks(n, i, lo, hi);
      LookTurns(n, i, upto, t);
      RankedFromStep(t, i + 1, upto, lo, hi, k, c);
      DeltaStep(n, i, lo, hi, k, c);
    }
  }

  lemma LookTurns(n: Node, i: nat, upto: nat, t: Node)
    requires n.Internal? && i < |n.branches| && Turns(n, i, t) && MayLookAt(n, i, upto)
    ensures t.Internal? && MayLookAt(t, i + 1, upto)
  {
    hide MayPass, AllGuaranteed, Range;
    forall j | i < j < upto && j < |t.branches|
      ensures MayLook(t.branches, t.queue, j)
    {
      assert MayLook(n.branches, n.queue, j);
      assert t.branches[j] == n.branches[j];
    }
  }

  /** The path of the place, and the child on it. */
  lemma OnRank(n: Node, p: Place, lo: Option<Key>, hi: Option<Key>)
    requires n.Internal? && |p.path| > 0 && p.path[0] < |n.branches| && Ordered(n, lo, hi) && Parsed(n)
    ensures var i := p.path[0]; var t := RankedFrom(n, 0, i, lo, hi);
            var flo, fhi := ForkLo(n.branches, i, lo), ForkHi(n.branches, i, hi);
            && Ordered(t, lo, hi) && Parsed(t) && |t.branches| == |n.branches|
            && t.branches[i] == n.branches[i] && Range(t.branches, t.queue, i) == Range(n.branches, n.queue, i)
            && flo == Lo(n.branches, i, lo) == Lo(t.branches, i, lo) &&
              fhi == Hi(n.branches, i, hi) == Hi(t.branches, i, hi)
            && Ordered(n.branches[i].child, flo, fhi) && Parsed(n.branches[i].child)
            && Ranked(n, p, lo, hi) == PutChild(t, i, Ranked(n.branches[i].child, Place(p.path[1..], p.spot), flo, fhi))
  {
    hide Range, RankedFrom;
    RankedRest(n, 0, p.path[0], lo, hi);
    PendIsRange(n, p.path[0], lo, hi);
  }

  /** Ranking keeps search order, and the form parsing leaves. */
  lemma {:induction false} RankedOrdered(n: Node, p: Place, lo: Option<Key>, hi: Option<Key>)
    requires Ordered(n, lo, hi) && Parsed(n)
    ensures Ordered(Ranked(n, p, lo, hi), lo, hi) && Parsed(Ranked(n, p, lo, hi))
    decreases n
  {
    hide Ordered, Parsed, RankedFrom, PutChild, Range;
    if n.Internal? && |p.path| > 0 && p.path[0] < |n.branches| {
      var i := p.path[0];
      OnRank(n, p, lo, hi);
      var c, below := n.branches[i].child, Place(p.path[1..], p.spot);
      RankedOrdered(c, below, Lo(n.branches, i, lo), Hi(n.branches, i, hi));
      PutChildOrdered(RankedFrom(n, 0, i, lo, hi), i, Ranked(c, below, Lo(n.branches, i, lo), Hi(n.branches, i, hi)),
        lo, hi);
      PutChildParsed(RankedFrom(n, 0, i, lo, hi), i, Ranked(c, below, Lo(n.branches, i, lo), Hi(n.branches, i, hi)));
    }
  }

  /** After rank the place reads the same item, on a path that is settled as before. */
  lemma {:induction false} RankedItem(n: Node, p: Place, lo: Option<Key>, hi: Option<Key>)
    requires Ordered(n, lo, hi) && Parsed(n)
    ensures ItemAt(Ranked(n, p, lo, hi), p) == ItemAt(n, p)
    ensures Stands(n, p) ==> Stands(Ranked(n, p, lo, hi), p)
    decreases n
  {
    hide Ordered, Parsed, RankedFrom, Range;
    if n.Internal? && |p.path| > 0 && p.path[0] < |n.branches| {
      var i := p.path[0];
      OnRank(n, p, lo, hi);
      var c, below := n.branches[i].child, Place(p.path[1..], p.spot);
      RankedItem(c, below, Lo(n.branches, i, lo), Hi(n.branches, i, hi));
      var t, d := RankedFrom(n, 0, i, lo, hi), Ranked(c, below, Lo(n.branches, i, lo), Hi(n.branches, i, hi));
      RangeSame(t.branches, PutChild(t, i, d).branches, t.queue, i);
    }
  }

  /** Nor does ranking add to what the tree means, where the edits it applies deep may pass. */
  lemma {:induction false} RankedStep(n: Node, p: Place, lo: Option<Key>, hi: Option<Key>, k: Key, c: Values)
    requires Ordered(n, lo, hi) && Parsed(n) && MayRank(n, p)
    requires Denotes(Ranked(n, p, lo, hi), k, c)
    ensures Denotes(n, k, c)
    decreases n
  {
    hide Ordered, Parsed, RankedFrom, PutChild, Denotes, MayLook, Range, Route;
    if n.Internal? && |p.path| > 0 && p.path[0] < |n.branches| {
      var i := p.path[0];
      OnRank(n, p, lo, hi);
      var t, d, below := RankedFrom(n, 0, i, lo, hi), n.branches[i].child, Place(p.path[1..], p.spot);
      var r := Ranked(d, below, Lo(n.branches, i, lo), Hi(n.branches, i, hi));
      forall x | Denotes(r, k, x)
        ensures Denotes(d, k, x)
      {
        RankedStep(d, below, Lo(n.branches, i, lo), Hi(n.branches, i, hi), k, x);
      }
      PutChildStep(t, i, r, k, c);
      RankedFromStep(n, 0, i, lo, hi, k, c);
    }
  }

  // ---------------------------------------------------------------- contents

  lemma {:induction false} SingleResult(es: seq<Edit>, b: Values, c: Values)
    requires SingleValued(es, b) && Steps(es, b, c)
    ensures |c| <= 1
  {
    hide Step;
    if |es| > 0 {
      var m :| Step(es[0], b, m) && Steps(es[1..], m, c);
      SingleResult(es[1..], m, c);
    }
  }

  lemma OneInBag(a: seq<Pair>, k: Key)
    requires |a| > 0 && |Bag(a, k)| <= 1 && a[0].key == k
    ensures Bag(a, k) == multiset{a[0].value} && Bag(a[1..], k) == multiset{}
  {
    assert |multiset{a[0].value} + Bag(a[1..], k)| == 1 + |Bag(a[1..], k)|;
  }

  lemma FirstKey(a: seq<Pair>, b: seq<Pair>)
    requires Sorted(a) && Sorted(b) && |a| > 0
    requires Bag(a, a[0].key) == Bag(b, a[0].key)
    ensures |b| > 0 && b[0].key <= a[0].key
  {
    BagHolds(a, a[0].key, a[0].value);
    BagHolds(b, a[0].key, a[0].value);
    assert a[0] in a;
    var j :| 0 <= j < |b| && b[j] == Pair(a[0].key, a[0].value);
  }

  /** Sorted pairs with at most one value for each key are determined by their bags. */
  lemma {:induction false} SinglesSame(a: seq<Pair>, b: seq<Pair>)
    requires Sorted(a) && Sorted(b)
    requires forall k :: Bag(a, k) == Bag(b, k) && |Bag(a, k)| <= 1
    ensures a == b
  {
    hide Bag, Sorted;
    if |a| == 0 {
      if |b| > 0 {
        FirstKey(b, a);
      }
    } else {
      FirstKey(a, b);
      FirstKey(b, a);
      var k0 := a[0].key;
      OneInBag(a, k0);
      OneInBag(b, k0);
      forall k
        ensures Bag(a[1..], k) == Bag(b[1..], k) && |Bag(a[1..], k)| <= 1
      {
        BagRest(a, k);
        BagRest(b, k);
      }
      SortedRest(a);
      SortedRest(b);
      SinglesSame(a[1..], b[1..]);
      SameHead(a, b);
    }
  }

  lemma SameHead(a: seq<Pair>, b: seq<Pair>)
    requires |a| > 0 && |b| > 0 && a[0].key == b[0].key && multiset{a[0].value} == multiset{b[0].value}
    requires a[1..] == b[1..]
    ensures a == b
  {
    assert a[0].value in multiset{b[0].value};
    assert a == [a[0]] + a[1..] && b == [b[0]] + b[1..];
  }

  lemma BagRest(a: seq<Pair>, k: Key)
    requires |a| > 0
    ensures a[0].key != k ==> Bag(a[1..], k) == Bag(a, k)
  {
  }

  lemma SortedRest(a: seq<Pair>)
    requires |a| > 0 && Sorted(a)
    ensures Sorted(a[1..])
  {
  }

  /** No key ever holds two values. */
  ghost predicate Singles(n: Node) {
    forall k :: SingleValued(Pending(n, k), Held(n, k))
  }

  /** A tree that stands for no more, where no key ever holds two values, reads the same. */
  lemma SameReading(n: Node, t: Node)
    requires Ordered(n, None, None) && Ordered(t, None, None) && Singles(n)
    requires forall k, c :: Denotes(t, k, c) ==> Denotes(n, k, c)
    ensures Content(t) == Content(n)
  {
    hide Ordered, Content, Bag, Held, Pending, SingleValued, Steps, Sorted;
    ContentSorted(n, None, None);
    ContentSorted(t, None, None);
    forall k
      ensures Bag(Content(t), k) == Bag(Content(n), k) && |Bag(Content(t), k)| <= 1
    {
      assert Within(None, None, k);
      ContentDenoted(n, None, None, k);
      ContentDenoted(t, None, None, k);
      assert Denotes(n, k, Bag(Content(t), k));
      StepsDeterministic(Pending(n, k), Held(n, k), Bag(Content(n), k), Bag(Content(t), k));
      SingleResult(Pending(n, k), Held(n, k), Bag(Content(t), k));
    }
    SinglesSame(Content(t), Content(n));
  }

  /**
   * After seek the contents are, at every key, a bag the tree stood for before;
   * the same contents where no key ever holds two values.
   */
  lemma SeekContent(n: Node, m: int)
    requires Ordered(n, None, None) && Parsed(n) && MayScan(n)
    ensures var t := Seek(n, m, None, None).0;
            && (forall k :: Denotes(n, k, Bag(Content(t), k)))
            && (Singles(n) ==> Content(t) == Content(n))
  {
    hide Ordered, Parsed, MayScan, Content, Bag, Denotes, Seek, Singles;
    SeekOrdered(n, m, None, None);
    var t := Seek(n, m, None, None).0;
    forall k, c | Denotes(t, k, c)
      ensures Denotes(n, k, c)
    {
      SeekStep(n, m, None, None, k, c);
    }
    Reading(n, t);
  }

  lemma Reading(n: Node, t: Node)
    requires Ordered(n, None, None) && Ordered(t, None, None)
    requires forall k, c :: Denotes(t, k, c) ==> Denotes(n, k, c)
    ensures forall k :: Denotes(n, k, Bag(Content(t), k))
    ensures Singles(n) ==> Content(t) == Content(n)
  {
    hide Ordered, Content, Bag, Denotes, Singles;
    forall k
      ensures Denotes(n, k, Bag(Content(t), k))
    {
      ContentDenoted(t, None, None, k);
    }
    if Singles(n) {
      SameReading(n, t);
    }
  }

  /** The same after rank. */
  lemma RankedContent(n: Node, p: Place)
    requires Ordered(n, None, None) && Parsed(n) && MayRank(n, p)
    ensures var t := Ranked(n, p, None, None);
            && (forall k :: Denotes(n, k, Bag(Content(t), k)))
            && (Singles(n) ==> Content(t) == Content(n))
  {
    hide Ordered, Parsed, MayRank, Content, Bag, Denotes, Ranked, Singles;
    RankedOrdered(n, p, None, None);
    var t := Ranked(n, p, None, None);
    forall k, c | Denotes(t, k, c)
      ensures Denotes(n, k, c)
    {
      RankedStep(n, p, None, None, k, c);
    }
    Reading(n, t);
  }

  /** Left of the path no edit goes deep into an internal child. */
  ghost predicate QuietRank(n: Node, p: Place)
    decreases n
  {
    n.Internal? && |p.path| > 0 && p.path[0] < |n.branches| ==>
      && (forall j :: 0 <= j < p.path[0] ==> Quiet(n.branches, n.queue, j))
      && QuietRank(n.branches[p.path[0]].child, Place(p.path[1..], p.spot))
  }

  ghost predicate Quiet(bs: seq<Branch>, q: seq<Edit>, j: nat)
    requires j < |bs|
  {
    AllGuaranteed(Range(bs, q, j)) || bs[j].child.Leaf?
  }

  lemma {:induction false} QuietSettles(n: Node, i: nat, upto: nat, lo: Option<Key>, hi: Option<Key>)
    requires n.Internal? && Ordered(n, lo, hi) && Parsed(n) && upto <= |n.branches|
    requires forall j :: i <= j < upto ==> Quiet(n.branches, n.queue, j)
    ensures var t := RankedFrom(n, i, upto, lo, hi);
            forall j :: 0 <= j < |n.branches| ==>
              Settled(t.branches, t.queue, j) == Settled(n.branches, n.queue, j)
    decreases if i <= |n.branches| then |n.branches| - i else 0
  {
    hide Ordered, Parsed, RankDelta, Range, Looked, Settled, AllGuaranteed;
    if i < upto {
      var t := RankDelta(n, i, lo, hi).0;
      Looks(n, i, lo, hi);
      assert Quiet(n.branches, n.queue, i);
      forall j | i < j < upto
        ensures Quiet(t.branches, t.queue, j)
      {
        assert Quiet(n.branches, n.queue, j);
        assert t.branches[j] == n.branches[j];
      }
      forall j | 0 <= j < |n.branches|
        ensures Settled(t.branches, t.queue, j) == Settled(n.branches, n.queue, j)
      {
        DeltaSettles(n, i, lo, hi, j);
      }
      QuietSettles(t, i + 1, upto, lo, hi);
    }
  }

  /** Where no edit goes deep into an internal child, ranking leaves exactly the same contents. */
  lemma {:induction false} RankedSame(n: Node, p: Place, lo: Option<Key>, hi: Option<Key>)
    requires Ordered(n, lo, hi) && Parsed(n) && Stands(n, p) && QuietRank(n, p)
    ensures Content(Ranked(n, p, lo, hi)) == Content(n)
    decreases n
  {
    hide Ordered, Parsed, RankedFrom, Range, Settled, Content, ContentFrom, Quiet, PutChild;
    if n.Internal? {
      var i := p.path[0];
      OnRank(n, p, lo, hi);
      var c, below := n.branches[i].child, Place(p.path[1..], p.spot);
      RankedSame(c, below, Lo(n.branches, i, lo), Hi(n.branches, i, hi));
      QuietSettles(n, 0, i, lo, hi);
      var t, d := RankedFrom(n, 0, i, lo, hi), Ranked(c, below, Lo(n.branches, i, lo), Hi(n.branches, i, hi));
      ContentFromSame(n.branches, n.queue, t.branches, t.queue, 0);
      ContentStart(n);
      ContentStart(t);
      PutChildContent(t, i, d);
    }
  }

  // ---------------------------------------------------------------- where the order of duplicates changes

  function Listed(k: Key, vs: seq<Value>): Node {
    Leaf(Leaves.LeafData(Leaves.Under(k, vs), Overflow.End))
  }

  function Inserting(k: Key, v: Value): Edit { Edit(INSERT, k, v, false) }

  /** A leaf with these values of one key, below a queue. */
  function OverLeaf(k: Key, vs: seq<Value>, q: seq<Edit>): Node {
    Internal([Branch(None, |vs|, 0, true, Listed(k, vs))], q)
  }

  lemma InsertedLast(k: Key, vs: seq<Value>, v: Value, deep: bool)
    requires |vs| < 2
    ensures Apply(Listed(k, vs), Inserting(k, v), deep) == Listed(k, vs + [v])
  {
    var ps := Leaves.Under(k, vs);
    assert UpperBound(ps, k) == |ps|;
    assert ps[..|ps|] + [Pair(k, v)] + ps[|ps|..] == Leaves.Under(k, vs + [v]);
  }

  lemma ReadsOne(k: Key, v: Value, w: Value)
    ensures Content(OverLeaf(k, [v], [Inserting(k, w)])) == [Pair(k, v), Pair(k, w)]
  {
    hide Apply;
    var n, e := OverLeaf(k, [v], [Inserting(k, w)]), Inserting(k, w);
    assert Range(n.branches, n.queue, 0) == [e];
    InsertedLast(k, [v], w, false);
    assert [v] + [w] == [v, w] && [e][1..] == [];
    ContentFromStep(n.branches, n.queue, 0);
    assert Settled(n.branches, n.queue, 0) == ApplyMany(Apply(Listed(k, [v]), e, false), [e][1..], false);
    assert Leaves.Items(Listed(k, [v, w]).leaf) == [Pair(k, v), Pair(k, w)];
  }

  lemma ReadsTwo(k: Key, v: Value, w: Value)
    ensures Content(OverLeaf(k, [], [Inserting(k, v), Inserting(k, w)])) == [Pair(k, v), Pair(k, w)]
  {
    hide Apply;
    var es := [Inserting(k, v), Inserting(k, w)];
    var n := OverLeaf(k, [], es);
    assert Range(n.branches, n.queue, 0) == es;
    InsertedLast(k, [], v, false);
    InsertedLast(k, [v], w, false);
    assert [] + [v] == [v] && [v] + [w] == [v, w] && es[1..] == [es[1]] && [es[1]][1..] == [];
    ContentFromStep(n.branches, n.queue, 0);
    assert ApplyMany(Listed(k, []), es, false) == ApplyMany(Listed(k, [v]), [es[1]], false)
      == ApplyMany(Listed(k, [v, w]), [], false);
    assert Leaves.Items(Listed(k, [v, w]).leaf) == [Pair(k, v), Pair(k, w)];
  }

  /**
   * Two inserts that are not guaranteed, as in a tree read back, one queued above
   * the other: looking at the branch adds nothing to what the tree stands for,
   * and yet the two items change places.
   */
  lemma LookReorders(k: Key, v: Value, w: Value)
    ensures var n := Internal([Branch(None, 0, 0, true, OverLeaf(k, [], [Inserting(k, v)]))], [Inserting(k, w)]);
            && Ordered(n, None, None) && Parsed(n) && MayLook(n.branches, n.queue, 0)
            && Content(n) == [Pair(k, v), Pair(k, w)]
            && Content(RankDelta(n, 0, None, None).0) == [Pair(k, w), Pair(k, v)]
  {
    hide Content, RankDelta, Settled, Term, Range;
    var c := OverLeaf(k, [], [Inserting(k, v)]);
    var n := Internal([Branch(None, 0, 0, true, c)], [Inserting(k, w)]);
    StackedParts(k, v, w);
    Looks(n, 0, None, None);
    var t := RankDelta(n, 0, None, None).0;
    ReadsTwo(k, v, w);
    ReadsOne(k, w, v);
    OnlyBranch(n);
    OnlyBranch(t);
  }

  lemma OnlyBranch(n: Node)
    requires n.Internal? && |n.branches| == 1
    ensures Content(n) == Content(Settled(n.branches, n.queue, 0))
  {
    hide Settled;
    ContentStart(n);
    ContentFromStep(n.branches, n.queue, 0);
    assert ContentFrom(n.branches, n.queue, 1) == [];
  }

  lemma StackedOrdered(k: Key, v: Value, w: Value)
    ensures var c := OverLeaf(k, [], [Inserting(k, v)]);
            var n := Internal([Branch(None, 0, 0, true, c)], [Inserting(k, w)]);
            Ordered(n, None, None) && Parsed(n) && Range(n.branches, n.queue, 0) == [Inserting(k, w)]
  {
    var c := OverLeaf(k, [], [Inserting(k, v)]);
    assert Ordered(Listed(k, []), None, None);
    assert Ordered(c, None, None);
  }

  lemma StackedParts(k: Key, v: Value, w: Value)
    ensures var c := OverLeaf(k, [], [Inserting(k, v)]);
            var n := Internal([Branch(None, 0, 0, true, c)], [Inserting(k, w)]);
            && Ordered(n, None, None) && Parsed(n) && MayLook(n.branches, n.queue, 0)
            && Looked(n.branches, n.queue, 0) == OverLeaf(k, [w], [Inserting(k, v)])
            && Settled(n.branches, n.queue, 0) == OverLeaf(k, [], [Inserting(k, v), Inserting(k, w)])
  {
    hide Ordered, Parsed, Range, ApplyMany, Apply, Pending, OverLeaf;
    var c, e := OverLeaf(k, [], [Inserting(k, v)]), Inserting(k, w);
    StackedOrdered(k, v, w);
    assert !AllGuaranteed([e]) by { assert !([e][0]).guaranteed; }
    InsertedBelow(k, v, w);
    InsertWaits(k, v);
    ManyOne(c, e, true);
    ManyOne(c, e, false);
  }

  lemma InsertWaits(k: Key, v: Value)
    ensures Pending(OverLeaf(k, [], [Inserting(k, v)]), k) == [Inserting(k, v)]
  {
    EditsOnOne(Inserting(k, v), k);
  }

  lemma InsertedBelow(k: Key, v: Value, w: Value)
    ensures var c := OverLeaf(k, [], [Inserting(k, v)]);
            && Apply(c, Inserting(k, w), true) == OverLeaf(k, [w], [Inserting(k, v)])
            && Apply(c, Inserting(k, w), false) == OverLeaf(k, [], [Inserting(k, v), Inserting(k, w)])
  {
    var c, d := OverLeaf(k, [], [Inserting(k, v)]), Inserting(k, v);
    InsertedLast(k, [], w, true);
    assert [] + [w] == [w];
    assert Route(c.branches, k) == 0;
    assert ItemCount(Listed(k, [w])) == 1;
    assert EditUpper([d], k) == 1 by { assert [d][1..] == []; }
    assert [d][..1] + [Inserting(k, w)] + [d][1..] == [d, Inserting(k, w)];
  }
}
