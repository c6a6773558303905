/** The rank of an iterator: counts and pending deltas left of its path, plus its index in the leaf. */
module Ranking {
  import opened Types
  import opened Multimap
  import opened Tree
  import opened Meaning
  import opened Lookup
  import opened Contents
  import opened Counting
  import opened Seeking
  import Leaves
  import Overflow

  /**
   * The terms of rank for the branches i..upto of one node.  The stored count
   * is read before pendingRankDelta, which may apply edits and change it.
   */
  function RankFrom(n: Node, i: nat, upto: nat, lo: Option<Key>, hi: Option<Key>): int
    requires n.Internal?
    decreases if i <= |n.branches| then |n.branches| - i else 0
  {
    if i >= upto || i >= |n.branches| then 0
    else
      var (t, delta) := RankDelta(n, i, lo, hi);
      n.branches[i].count + delta + RankFrom(t, i + 1, upto, lo, hi)
  }

  /** rank of a place on a leaf pair. */
  function Rank(n: Node, p: Place, lo: Option<Key>, hi: Option<Key>): int
    decreases n
  {
    match n
    case Leaf(_) => (match p.spot case OnPair(i) => i case OnValue(_, i) => i)
    case Internal(bs, q) =>
      if |p.path| == 0 || p.path[0] >= |bs| then 0
      else
        var i := p.path[0];
        RankFrom(n, 0, i, lo, hi)
          + Rank(bs[i].child, Place(p.path[1..], p.spot), ForkLo(bs, i, lo), ForkHi(bs, i, hi))
  }

  /** The node after rank has looked at the branches i..upto. */
  function RankedFrom(n: Node, i: nat, upto: nat, lo: Option<Key>, hi: Option<Key>): (r: Node)
    requires n.Internal?
    ensures r.Internal? && |r.branches| == |n.branches|
    decreases if i <= |n.branches| then |n.branches| - i else 0
  {
    if i >= upto || i >= |n.branches| then n else RankedFrom(RankDelta(n, i, lo, hi).0, i + 1, upto, lo, hi)
  }

  /** The tree that rank leaves. */
  function Ranked(n: Node, p: Place, lo: Option<Key>, hi: Option<Key>): Node
    decreases n
  {
    match n
    case Leaf(_) => n
    case Internal(bs, _) =>
      if |p.path| == 0 || p.path[0] >= |bs| then n
      else
        var i := p.path[0];
        PutChild(RankedFrom(n, 0, i, lo, hi), i,
                 Ranked(bs[i].child, Place(p.path[1..], p.spot), ForkLo(bs, i, lo), ForkHi(bs, i, hi)))
  }

  /** Left branches whose waiting edits are all guaranteed contribute exactly their items. */
  lemma {:induction false} RankFromCounts(n: Node, i: nat, upto: nat, lo: Option<Key>, hi: Option<Key>)
    requires n.Internal? && Ordered(n, lo, hi) && Parsed(n) && i <= upto < |n.branches|
    requires LeftPassed(n, upto, lo, hi)
    ensures RankFrom(n, i, upto, lo, hi)
         == |ContentFrom(n.branches, n.queue, i)| - |ContentFrom(n.branches, n.queue, upto)|
    decreases |n.branches| - i
  {
    if i < upto {
      PendingIsRange(n, i, lo, hi);
      GuaranteedAll(Range(n.branches, n.queue, i));
      GuaranteedBranch(n, i, lo, hi);
      ContentFromStep(n.branches, n.queue, i);
      var t := Touch(n, i);
      TouchLeft(n, i, upto, lo, hi);
      RankFromCounts(t, i + 1, upto, lo, hi);
    }
  }

  lemma TouchLeft(n: Node, i: nat, upto: nat, lo: Option<Key>, hi: Option<Key>)
    requires n.Internal? && Ordered(n, lo, hi) && Parsed(n) && i < |n.branches| && upto < |n.branches|
    requires LeftPassed(n, upto, lo, hi)
    ensures var t := Touch(n, i);
            && |t.branches| == |n.branches| && Ordered(t, lo, hi) && Parsed(t) && LeftPassed(t, upto, lo, hi)
            && forall j :: 0 <= j <= |n.branches| ==>
                 ContentFrom(t.branches, t.queue, j) == ContentFrom(n.branches, n.queue, j)
  {
    var t := Touch(n, i);
    assert SameBranches(n.branches, t.branches);
    SameOrdered(n, t, lo, hi);
    SameContent(n, t);
    forall j | 0 <= j < upto
      ensures Countable(t, j, lo, hi) && AllGuaranteed(Range(t.branches, t.queue, j))
    {
      SameSettled(n, t, j);
      CountableMoves(n, t, j, lo, hi);
    }
  }

  /** On a settled path, rank is the number of items before the place. */
  lemma {:induction false} RankIsOffset(n: Node, p: Place, lo: Option<Key>, hi: Option<Key>)
    requires Ordered(n, lo, hi) && Parsed(n) && OnPath(n, p, lo, hi) && p.spot.OnPair?
    ensures Rank(n, p, lo, hi) == Offset(n, p)
    decreases n
  {
    if n.Internal? {
      var i := p.path[0];
      RankFromCounts(n, 0, i, lo, hi);
      PendIsRange(n, i, lo, hi);
      RankIsOffset(n.branches[i].child, Place(p.path[1..], p.spot), Lo(n.branches, i, lo), Hi(n.branches, i, hi));
    }
  }

  /** rank undoes seek wherever seek stops on a leaf pair. */
  lemma RankOfSeek(n: Node, m: nat)
    requires Ordered(n, None, None) && Parsed(n) && Seekable(n, None, None) && m < |Content(n)|
    ensures var (t, place) := Seek(n, m, None, None);
            place.Some? && (place.value.spot.OnPair? ==> Rank(t, place.value, None, None) == m)
  {
    SeekPlaces(n, m, None, None);
    var (t, place) := Seek(n, m, None, None);
    SeekOrdered(n, m, None, None);
    if place.value.spot.OnPair? {
      RankIsOffset(t, place.value, None, None);
    }
  }

  /** Seeking keeps the tree search-ordered. */
  lemma {:induction false} SeekOrdered(n: Node, m: int, lo: Option<Key>, hi: Option<Key>)
    requires Ordered(n, lo, hi) && Parsed(n)
    ensures Ordered(Seek(n, m, lo, hi).0, lo, hi) && Parsed(Seek(n, m, lo, hi).0)
    decreases Height(n), 1, 0
  {
    if n.Internal? {
      SeekFromOrdered(n, 0, m, lo, hi);
    }
  }

  lemma {:induction false} SeekFromOrdered(n: Node, i: nat, m: int, lo: Option<Key>, hi: Option<Key>)
    requires n.Internal? && Ordered(n, lo, hi) && Parsed(n)
    ensures Ordered(SeekFrom(n, i, m, lo, hi).0, lo, hi) && Parsed(SeekFrom(n, i, m, lo, hi).0)
    decreases Height(n), 0, if i <= |n.branches| then |n.branches| - i else 0
  {
    hide Ordered, Parsed, RankDelta, Push, PutChild;
    if i < |n.branches| {
      var (t, delta) := RankDelta(n, i, lo, hi);
      DeltaOrdered(n, i, lo, hi);
      var available := t.branches[i].count + delta;
      if m < available {
        PushedChild(t, i, lo, hi, false);
        var c := Push(t, i, lo, hi, false).branches[i].child;
        var flo, fhi := ForkLo(t.branches, i, lo), ForkHi(t.branches, i, hi);
        SeekOrdered(c, m, flo, fhi);
        PutBack(t, i, Seek(c, m, flo, fhi).0, lo, hi);
        SeeksDown(n, i, m, t, delta, lo, hi);
      } else {
        SeekFromOrdered(t, i + 1, m - available, lo, hi);
        SkipsOn(n, i, m, t, delta, lo, hi);
      }
    }
  }

  lemma PutBack(t: Node, i: nat, c: Node, lo: Option<Key>, hi: Option<Key>)
    requires t.Internal? && Ordered(t, lo, hi) && Parsed(t) && i < |t.branches|
    requires Ordered(c, ForkLo(t.branches, i, lo), ForkHi(t.branches, i, hi)) && Parsed(c)
    ensures var r := PutChild(Push(t, i, lo, hi, false), i, c); Ordered(r, lo, hi) && Parsed(r)
  {
    var p := Push(t, i, lo, hi, false);
    PushedChild(t, i, lo, hi, false);
    PendIsRange(t, i, lo, hi);
    assert Lo(p.branches, i, lo) == Lo(t.branches, i, lo) && Hi(p.branches, i, hi) == Hi(t.branches, i, hi);
    PutChildOrdered(p, i, c, lo, hi);
    PutChildParsed(p, i, c);
  }

  lemma DeltaOrdered(n: Node, i: nat, lo: Option<Key>, hi: Option<Key>)
    requires n.Internal? && Ordered(n, lo, hi) && Parsed(n) && i < |n.branches|
    ensures Ordered(RankDelta(n, i, lo, hi).0, lo, hi) && Parsed(RankDelta(n, i, lo, hi).0)
  {
    var t := Touch(n, i);
    assert SameBranches(n.branches, t.branches);
    SameOrdered(n, t, lo, hi);
    PushOrdered(t, i, lo, hi, true);
    PushParsed(t, i, lo, hi, true);
  }

  // ---------------------------------------------------------------- rank after find

  /** The place find leaves the iterator at: the first pair of the key. */
  function PlaceOf(n: Node, k: Key): Place
    decreases n
  {
    match n
    case Leaf(l) => Place([], OnPair(LowerBound(l.pairs, k)))
    case Internal(bs, _) =>
      if |bs| == 0 then Place([], OnPair(0))
      else
        var i := Route(bs, k);
        var p := PlaceOf(bs[i].child, k);
        Place([i] + p.path, p.spot)
  }

  lemma PushHonest(n: Node, i: nat, lo: Option<Key>, hi: Option<Key>, k: Key)
    requires n.Internal? && Ordered(n, lo, hi) && Parsed(n) && i < |n.branches| && Within(lo, hi, k)
    requires HonestAt(n, k)
    ensures HonestAt(Push(n, i, lo, hi, false), k)
  {
    var p := Push(n, i, lo, hi, false);
    PushedPends(n, i, lo, hi, k);
    if n.branches[i].child.Leaf? && Route(n.branches, k) == i {
      assert Pending(p, k) == [];
    }
  }

  lemma PushedPends(n: Node, i: nat, lo: Option<Key>, hi: Option<Key>, k: Key)
    requires n.Internal? && Ordered(n, lo, hi) && Parsed(n) && i < |n.branches| && Within(lo, hi, k)
    ensures var p := Push(n, i, lo, hi, false);
            if Route(n.branches, k) == i && n.branches[i].child.Leaf? then Pending(p, k) == []
            else Pending(p, k) == Pending(n, k) && Held(p, k) == Held(n, k)
  {
    hide Ordered, Parsed, Push, Apply;
    if Route(n.branches, k) == i {
      var c, es := n.branches[i].child, Range(n.branches, n.queue, i);
      OrderedParts(n, lo, hi);
      PushHere(n, lo, hi, k);
      if c.Leaf? {
        ManyLeafDepth(c.leaf, es);
      } else {
        ManyShallowPends(c, es, k);
      }
    } else {
      PushAway(n, i, lo, hi, k);
    }
  }

  lemma PushCounted(n: Node, i: nat, lo: Option<Key>, hi: Option<Key>)
    requires n.Internal? && Ordered(n, lo, hi) && Parsed(n) && i < |n.branches| && Counted(n) && Honest(n, lo, hi)
    ensures Counted(Push(n, i, lo, hi, false))
  {
    PendIsRange(n, i, lo, hi);
    SettledFacts(n, i, lo, hi);
  }

  /** The child a find goes into is honest and counted, too. */
  lemma PushedHonest(n: Node, i: nat, lo: Option<Key>, hi: Option<Key>)
    requires n.Internal? && Ordered(n, lo, hi) && Parsed(n) && i < |n.branches| && Counted(n) && Honest(n, lo, hi)
    ensures var p := Push(n, i, lo, hi, false); var c := p.branches[i].child;
            && Honest(p, lo, hi) && Counted(p)
            && Counted(c) && Honest(c, ForkLo(n.branches, i, lo), ForkHi(n.branches, i, hi))
  {
    forall k | Within(lo, hi, k)
      ensures HonestAt(Push(n, i, lo, hi, false), k)
    {
      PushHonest(n, i, lo, hi, k);
    }
    PushCounted(n, i, lo, hi);
    SettledFacts(n, i, lo, hi);
    PushedRange(n, i, lo, hi);
    PendIsRange(n, i, lo, hi);
  }

  lemma HonestPasses(n: Node, i: nat, lo: Option<Key>, hi: Option<Key>)
    requires n.Internal? && Ordered(n, lo, hi) && Counted(n) && Honest(n, lo, hi) && i <= |n.branches|
    ensures Passed(n, i, lo, hi)
  {
    HonestSeekable(n, lo, hi);
    HonestEdits(n, lo, hi);
    forall j | 0 <= j < i
      ensures AllGuaranteed(Range(n.branches, n.queue, j))
    {
      RangeGuaranteed(n.branches, n.queue, j);
    }
  }

  lemma RangeGuaranteed(bs: seq<Branch>, q: seq<Edit>, j: nat)
    requires j < |bs| && AllGuaranteed(q)
    ensures AllGuaranteed(Range(bs, q, j))
  {
  }

  lemma PutChildPassed(p: Node, i: nat, c: Node, lo: Option<Key>, hi: Option<Key>)
    requires p.Internal? && i < |p.branches| && Passed(p, i, lo, hi)
    ensures LeftPassed(PutChild(p, i, c), i, lo, hi)
  {
    var r := PutChild(p, i, c);
    forall j | 0 <= j < i
      ensures Countable(r, j, lo, hi) && AllGuaranteed(Range(r.branches, r.queue, j))
    {
      RangeSame(p.branches, r.branches, p.queue, j);
      CountableMoves(p, r, j, lo, hi);
    }
  }

  /** The child find goes into, and what is left of it once the child has been searched. */
  lemma FindChild(n: Node, k: Key, lo: Option<Key>, hi: Option<Key>)
    requires n.Internal? && Ordered(n, lo, hi) && Parsed(n) && Counted(n) && Honest(n, lo, hi) && Within(lo, hi, k)
    ensures var i := Route(n.branches, k); var p := Push(n, i, lo, hi, false); var c := p.branches[i].child;
            var flo, fhi := ForkLo(n.branches, i, lo), ForkHi(n.branches, i, hi);
            && Route(p.branches, k) == i && Range(p.branches, p.queue, i) == []
            && Within(flo, fhi, k)
            && Ordered(c, flo, fhi) && Parsed(c) && Counted(c) && Honest(c, flo, fhi) && Height(c) < Height(n)
            && flo == Lo(p.branches, i, lo) && fhi == Hi(p.branches, i, hi)
            && Passed(p, i, lo, hi)
  {
    hide AllGuaranteed, Apply, EditLower, Held, HonestAt, Truthful;
    var i := Route(n.branches, k);
    PushEmpties(n, k, lo, hi);
    PushedHonest(n, i, lo, hi);
    PushedChild(n, i, lo, hi, false);
    PushedRange(n, i, lo, hi);
    HonestPasses(Push(n, i, lo, hi, false), i, lo, hi);
    PendIsRange(n, i, lo, hi);
  }

  /** In an honest, counted tree, find leaves a settled path to the first pair of the key. */
  lemma {:induction false} FindPlaces(n: Node, k: Key, lo: Option<Key>, hi: Option<Key>)
    requires Ordered(n, lo, hi) && Parsed(n) && Counted(n) && Honest(n, lo, hi) && Within(lo, hi, k)
    requires ValueAt(Find(n, Some(k), lo, hi), k).Some?
    ensures var t := Find(n, Some(k), lo, hi); OnPath(t, PlaceOf(t, k), lo, hi)
    decreases Height(n)
  {
    if n.Internal? {
      var i := Route(n.branches, k);
      var p := Push(n, i, lo, hi, false);
      FindChild(n, k, lo, hi);
      var flo, fhi := ForkLo(n.branches, i, lo), ForkHi(n.branches, i, hi);
      var c := p.branches[i].child;
      var d := Find(c, Some(k), flo, fhi);
      assert Find(n, Some(k), lo, hi) == PutChild(p, i, d);
      FoundBelow(p, i, d, k);
      FindPlaces(c, k, flo, fhi);
      FindContent(c, Some(k), flo, fhi);
      PathExtends(p, i, d, k, lo, hi);
    }
  }

  lemma FoundBelow(p: Node, i: nat, d: Node, k: Key)
    requires p.Internal? && i < |p.branches| && Route(p.branches, k) == i
    ensures Route(PutChild(p, i, d).branches, k) == i
    ensures ValueAt(PutChild(p, i, d), k) == ValueAt(d, k)
  {
    RouteSame(p.branches, PutChild(p, i, d).branches, k);
  }

  lemma PathExtends(p: Node, i: nat, d: Node, k: Key, lo: Option<Key>, hi: Option<Key>)
    requires p.Internal? && i < |p.branches| && Route(p.branches, k) == i
    requires Range(p.branches, p.queue, i) == [] && Passed(p, i, lo, hi)
    requires Content(d) == Content(p.branches[i].child)
    requires OnPath(d, PlaceOf(d, k), Lo(p.branches, i, lo), Hi(p.branches, i, hi))
    ensures OnPath(PutChild(p, i, d), PlaceOf(PutChild(p, i, d), k), lo, hi)
  {
    var t := PutChild(p, i, d);
    FoundBelow(p, i, d, k);
    PutChildFrom(p, i, d);
    PutChildPassed(p, i, d, lo, hi);
    assert PlaceOf(t, k).path[1..] == PlaceOf(d, k).path;
    assert Lo(t.branches, i, lo) == Lo(p.branches, i, lo) && Hi(t.branches, i, hi) == Hi(p.branches, i, hi);
  }

  lemma {:induction false} PlaceHolds(n: Node, k: Key)
    requires ValueAt(n, k).Some?
    ensures ItemAt(n, PlaceOf(n, k)) == Some(Pair(k, ValueAt(n, k).value)) && PlaceOf(n, k).spot.OnPair?
    decreases n
  {
    match n
    case Leaf(l) =>
    case Internal(bs, _) =>
      if |bs| > 0 {
        var i := Route(bs, k);
        PlaceHolds(bs[i].child, k);
        assert PlaceOf(n, k).path[1..] == PlaceOf(bs[i].child, k).path;
      }
  }

  // ---------------------------------------------------------------- where rank goes wrong

  /** What pendingRankDelta reports for edits: nothing unless all of them are guaranteed. */
  function Reported(es: seq<Edit>): int {
    if AllGuaranteed(es) then Deltas(es) else 0
  }

  /** The number of items in a node, with its queues and the edits sent to it run on the leaves. */
  function Items(n: Node): int
    decreases Height(n), 1, 0
  {
    match n
    case Leaf(l) => Leaves.Count(l)
    case Internal(bs, q) => ItemsLeftOf(bs, q, |bs|)
  }

  /** The number of items in branch i: at a leaf, its items and the gain of the edits waiting for it. */
  function BranchItems(bs: seq<Branch>, q: seq<Edit>, i: nat): int
    requires i < |bs|
    decreases 1 + MaxHeight(bs), 0, 0
  {
    var c, es := bs[i].child, Range(bs, q, i);
    match c
    case Leaf(l) => Leaves.Count(l) + Gain(l, es)
    case Internal(_, _) =>
      SettledHeight(bs, q, i);
      Items(ApplyMany(c, es, false))
  }

  function ItemsLeftOf(bs: seq<Branch>, q: seq<Edit>, i: nat): int
    requires i <= |bs|
    decreases 1 + MaxHeight(bs), 0, 1 + i
  {
    if i == 0 then 0 else ItemsLeftOf(bs, q, i - 1) + BranchItems(bs, q, i - 1)
  }

  /** How far the term of branch i is off: stored count and reported delta against its items. */
  function TermDrift(bs: seq<Branch>, q: seq<Edit>, i: nat): int
    requires i < |bs|
  {
    bs[i].count + Reported(Range(bs, q, i)) - BranchItems(bs, q, i)
  }

  function DriftLeftOf(bs: seq<Branch>, q: seq<Edit>, i: nat): int
    requires i <= |bs|
  {
    if i == 0 then 0 else DriftLeftOf(bs, q, i - 1) + TermDrift(bs, q, i - 1)
  }

  /** How far rank is off: the terms left of the path, at every level. */
  function Drift(n: Node, p: Place): int
    decreases n
  {
    match n
    case Leaf(_) => 0
    case Internal(bs, q) =>
      if |p.path| == 0 || p.path[0] >= |bs| then 0
      else DriftLeftOf(bs, q, p.path[0]) + Drift(bs[p.path[0]].child, Place(p.path[1..], p.spot))
  }

  // -- items are counted

  lemma {:induction false} ItemsAre(n: Node)
    ensures Items(n) == |Content(n)|
    decreases Height(n), 1, 0
  {
    match n
    case Leaf(l) => Overflow.CountIsLength(l.chain);
    case Internal(bs, q) => ItemsLeftAre(bs, q, |bs|);
  }

  lemma {:induction false} BranchItemsAre(bs: seq<Branch>, q: seq<Edit>, i: nat)
    requires i < |bs|
    ensures BranchItems(bs, q, i) == |Content(Settled(bs, q, i))|
    decreases 1 + MaxHeight(bs), 0, 0
  {
    var c, es := bs[i].child, Range(bs, q, i);
    match c
    case Leaf(l) =>
      ManyLeafGain(l, es);
      Overflow.CountIsLength(Settled(bs, q, i).leaf.chain);
    case Internal(_, _) =>
      SettledHeight(bs, q, i);
      ItemsAre(Settled(bs, q, i));
  }

  lemma {:induction false} ItemsLeftAre(bs: seq<Branch>, q: seq<Edit>, i: nat)
    requires i <= |bs|
    ensures ItemsLeftOf(bs, q, i) + |ContentFrom(bs, q, i)| == |ContentFrom(bs, q, 0)|
    decreases 1 + MaxHeight(bs), 0, 1 + i
  {
    hide BranchItems, Settled, Content, ContentFrom, Gain;
    if i > 0 {
      ItemsLeftAre(bs, q, i - 1);
      BranchItemsAre(bs, q, i - 1);
      ContentFromStep(bs, q, i - 1);
    }
  }

  // -- the terms of rank

  /** Looking at one branch changes neither the count nor the edits of another. */
  lemma OtherTerm(n: Node, i: nat, j: nat, lo: Option<Key>, hi: Option<Key>)
    requires n.Internal? && Ordered(n, lo, hi) && Parsed(n) && i < |n.branches| && j < |n.branches| && i != j
    ensures var t := RankDelta(n, i, lo, hi).0;
            t.branches[j].count == n.branches[j].count && Range(t.branches, t.queue, j) == Range(n.branches, n.queue, j)
  {
    hide ApplyMany, Ordered, Parsed;
    var u := Touch(n, i);
    assert SameBranches(n.branches, u.branches);
    SameOrdered(n, u, lo, hi);
    SameSettled(n, u, j);
    PendIsRange(u, i, lo, hi);
    OrderedParts(u, lo, hi);
    RangeAfter(u.branches, u.queue, lo, hi, i, j);
    RangeSame(u.branches, Push(u, i, lo, hi, true).branches, Push(u, i, lo, hi, true).queue, j);
  }

  function Terms(bs: seq<Branch>, q: seq<Edit>, i: nat, upto: nat): int
    requires i <= upto <= |bs|
    decreases upto - i
  {
    if i == upto then 0 else bs[i].count + Reported(Range(bs, q, i)) + Terms(bs, q, i + 1, upto)
  }

  lemma {:induction false} TermsSame(n: Node, t: Node, i: nat, upto: nat)
    requires n.Internal? && t.Internal? && i <= upto <= |n.branches| == |t.branches|
    requires forall j :: i <= j < upto ==>
               t.branches[j].count == n.branches[j].count &&
                 Range(t.branches, t.queue, j) == Range(n.branches, n.queue, j)
    ensures Terms(t.branches, t.queue, i, upto) == Terms(n.branches, n.queue, i, upto)
    decreases upto - i
  {
    hide Range;
    if i < upto {
      TermsSame(n, t, i + 1, upto);
    }
  }

  /** The code adds, for each branch, its stored count and what its waiting edits report. */
  lemma {:induction false} RankFromIs(n: Node, i: nat, upto: nat, lo: Option<Key>, hi: Option<Key>)
    requires n.Internal? && Ordered(n, lo, hi) && Parsed(n) && i <= upto <= |n.branches|
    ensures RankFrom(n, i, upto, lo, hi) == Terms(n.branches, n.queue, i, upto)
    decreases upto - i
  {
    hide Ordered, Parsed, RankDelta, Range;
    if i < upto {
      var (t, delta) := RankDelta(n, i, lo, hi);
      DeltaIs(n, i, lo, hi);
      DeltaOrdered(n, i, lo, hi);
      RankFromIs(t, i + 1, upto, lo, hi);
      forall j | i + 1 <= j < upto
        ensures t.branches[j].count == n.branches[j].count
        ensures Range(t.branches, t.queue, j) == Range(n.branches, n.queue, j)
      {
        OtherTerm(n, i, j, lo, hi);
      }
      TermsSame(n, t, i + 1, upto);
    }
  }

  lemma DeltaIs(n: Node, i: nat, lo: Option<Key>, hi: Option<Key>)
    requires n.Internal? && Ordered(n, lo, hi) && Parsed(n) && i < |n.branches|
    ensures RankDelta(n, i, lo, hi).1 == Reported(Range(n.branches, n.queue, i))
  {
    PendingIsRange(n, i, lo, hi);
  }

  lemma {:induction false} TermsDrift(bs: seq<Branch>, q: seq<Edit>, i: nat)
    requires i <= |bs|
    ensures Terms(bs, q, 0, i) == ItemsLeftOf(bs, q, i) + DriftLeftOf(bs, q, i)
  {
    hide BranchItems, Reported, Range;
    if i > 0 {
      TermsDrift(bs, q, i - 1);
      TermsLast(bs, q, 0, i);
    }
  }

  lemma {:induction false} TermsLast(bs: seq<Branch>, q: seq<Edit>, i: nat, upto: nat)
    requires i < upto <= |bs|
    ensures Terms(bs, q, i, upto) == Terms(bs, q, i, upto - 1) + bs[upto - 1].count + Reported(Range(bs, q, upto - 1))
    decreases upto - i
  {
    hide Reported, Range;
    if i + 1 < upto {
      TermsLast(bs, q, i + 1, upto);
    }
  }

  /**
   * What rank omits at a place in a chain: the pairs of the leaf, and the values
   * of the nodes before. Seek leaves the position in the leaf, and the indices of
   * these nodes, at their start, and rank only adds up positions.
   */
  function Omitted(n: Node, p: Place): int
    decreases n
  {
    match n
    case Leaf(l) =>
      (match p.spot
       case OnPair(_) => 0
       case OnValue(d, i) => |l.pairs| + ChainOffset(l.chain, d, i) - i)
    case Internal(bs, _) =>
      if |p.path| == 0 || p.path[0] >= |bs| then 0 else Omitted(bs[p.path[0]].child, Place(p.path[1..], p.spot))
  }

  lemma {:induction false} OffsetPastIndex(c: Overflow.Chain, depth: nat, i: nat)
    ensures ChainOffset(c, depth, i) >= i
  {
    if c.Node? && depth > 0 {
      OffsetPastIndex(c.next, depth - 1, i);
    }
  }

  lemma {:induction false} OmittedIs(n: Node, p: Place)
    requires Stands(n, p)
    ensures if p.spot.OnPair? then Omitted(n, p) == 0 else Omitted(n, p) > 0
    decreases n
  {
    match n
    case Leaf(l) =>
      if p.spot.OnValue? {
        OffsetPastIndex(l.chain, p.spot.depth, p.spot.i);
      }
    case Internal(bs, _) => OmittedIs(bs[p.path[0]].child, Place(p.path[1..], p.spot));
  }

  lemma {:induction false} RankIs(n: Node, p: Place, lo: Option<Key>, hi: Option<Key>)
    requires Ordered(n, lo, hi) && Parsed(n) && Stands(n, p)
    ensures Rank(n, p, lo, hi) == Offset(n, p) + Drift(n, p) - Omitted(n, p)
    decreases n
  {
    hide Range, Terms, ItemsLeftOf, DriftLeftOf, RankFrom;
    if n.Internal? {
      var i := p.path[0];
      RankFromIs(n, 0, i, lo, hi);
      TermsDrift(n.branches, n.queue, i);
      ItemsLeftAre(n.branches, n.queue, i);
      PendIsRange(n, i, lo, hi);
      RankIs(n.branches[i].child, Place(p.path[1..], p.spot), Lo(n.branches, i, lo), Hi(n.branches, i, hi));
    }
  }

  /**
   * On any tree: rank is the number of items before the place if and only if the
   * drifts of the branches left of its path add up to what it omits, which is
   * nothing on a leaf pair and something in a chain. The drifts are worked out from
   * stored counts, from the flags of the waiting edits, and from what these edits
   * do, one by one, to the bags of the leaves.
   */
  lemma RankExact(n: Node, p: Place)
    requires Ordered(n, None, None) && Parsed(n) && Stands(n, p)
    ensures Rank(n, p, None, None) == Offset(n, p) <==> Drift(n, p) == Omitted(n, p)
    ensures if p.spot.OnPair? then Omitted(n, p) == 0 else Omitted(n, p) > 0
    ensures 0 <= Offset(n, p) < |Content(n)| && ItemAt(n, p) == Some(Content(n)[Offset(n, p)])
  {
    hide Ordered, Parsed, Stands, Rank, Offset, Drift, Omitted, ItemAt, Content;
    RankIs(n, p, None, None);
    OmittedIs(n, p);
    OffsetIsItem(n, p);
  }

  const Removal := Edit(REMOVE_KEY, 1, [], false)

  function Single(k: Key): Leaves.Valid { Leaves.LeafData([Pair(k, [])], Overflow.End) }

  function TwoLeaves(loaded: bool): Node {
    Internal([Branch(None, 1, 0, false, Leaf(Single(1))), Branch(Some(3), 1, 1, loaded, Leaf(Single(3)))], [Removal])
  }

  lemma TwoRanges(loaded: bool)
    ensures var n := TwoLeaves(loaded);
            && Ordered(n, None, None) && Parsed(n) && Counted(n)
            && PendingFor(n, 0, None, None) == Range(n.branches, n.queue, 0) == [Removal]
            && PendingFor(n, 1, None, None) == Range(n.branches, n.queue, 1) == []
            && Route(n.branches, 3) == 1
  {
    hide Route, Start;
    var n := TwoLeaves(loaded);
    assert EditLower([Removal], 3) == 1 by {
      assert [Removal][1..] == [];
    }
    RouteIs(n.branches, None, None, 3, 1);
    PendIsRange(n, 0, None, None);
    PendIsRange(n, 1, None, None);
  }

  lemma RemovalEmpties()
    ensures Leaves.Edited(Single(1), Removal) == Leaves.LeafData([], Overflow.End)
    ensures ApplyMany(Leaf(Single(1)), [Removal], false) == Leaf(Leaves.LeafData([], Overflow.End))
  {
    var ps := Single(1).pairs;
    assert Leaves.FirstMatch(ps, 1, None, 0) == 0;
    assert ps[..0] + ps[1..] == [];
    assert [Removal][1..] == [];
    assert ApplyMany(Apply(Leaf(Single(1)), Removal, false), [], false) == Apply(Leaf(Single(1)), Removal, false);
  }

  lemma TwoContent()
    ensures Content(TwoLeaves(false)) == [Pair(3, [])]
  {
    hide Apply, Leaves.Count;
    var n := TwoLeaves(false);
    TwoRanges(false);
    RemovalEmpties();
    ContentFromStep(n.branches, n.queue, 0);
    ContentFromStep(n.branches, n.queue, 1);
    assert Settled(n.branches, n.queue, 1) == Leaf(Single(3));
    assert Leaves.Items(Single(3)) == [Pair(3, [])];
  }

  lemma TwoFind()
    ensures Find(TwoLeaves(false), Some(3), None, None) == TwoLeaves(true)
  {
    var n := TwoLeaves(false);
    TwoRanges(false);
    var p := Push(n, 1, None, None, false);
    assert p.branches[1].child == Leaf(Single(3));
    assert p.queue == [Removal] by {
      PendIsRange(n, 1, None, None);
    }
    assert p.branches == TwoLeaves(true).branches;
    var d := Find(Leaf(Single(3)), Some(3), ForkLo(n.branches, 1, None), ForkHi(n.branches, 1, None));
    assert d == Leaf(Single(3));
    assert Find(n, Some(3), None, None) == PutChild(p, 1, d);
  }

  lemma TwoPlace()
    ensures PlaceOf(TwoLeaves(true), 3) == Place([1], OnPair(0))
  {
    TwoRanges(true);
    assert PlaceOf(Leaf(Single(3)), 3) == Place([], OnPair(0));
  }

  /** One left branch whose edits are not guaranteed adds its stored count, and nothing else. */
  lemma StaleTerm(n: Node, lo: Option<Key>, hi: Option<Key>)
    requires n.Internal? && |n.branches| > 0 && !AllGuaranteed(PendingFor(n, 0, lo, hi))
    ensures RankFrom(n, 0, 1, lo, hi) == n.branches[0].count
  {
    var (u, delta) := RankDelta(n, 0, lo, hi);
    assert delta == 0 && RankFrom(u, 1, 1, lo, hi) == 0;
  }

  lemma TwoRank()
    ensures Rank(TwoLeaves(true), Place([1], OnPair(0)), None, None) == 1
  {
    hide ForkHi, RankFrom, Single;
    var t := TwoLeaves(true);
    TwoRanges(true);
    assert [Removal][0] == Removal && !AllGuaranteed([Removal]);
    StaleTerm(t, None, None);
    assert Rank(t.branches[1].child, Place([1][1..], OnPair(0)), Some(3), None) == 0;
  }

  /**
   * A removal that is not guaranteed waits left of the found key: the key is
   * the first item of the contents, and its rank comes out as 1.
   */
  lemma RankStale()
    ensures var n := TwoLeaves(false); var t := Get(n, 3).0;
            && Ordered(n, None, None) && Parsed(n) && Counted(n)
            && Content(n) == [Pair(3, [])]
            && Rank(t, PlaceOf(t, 3), None, None) == 1
  {
    TwoRanges(false);
    TwoContent();
    TwoFind();
    TwoPlace();
    TwoRank();
  }
}
