/** Seeking by offset: the scan over branch counts with pending deltas. */
module Seeking {
  import opened Types
  import opened Multimap
  import opened Tree
  import opened Meaning
  import opened Lookup
  import opened Contents
  import opened Counting
  import Leaves
  import Overflow

  /** Where an iterator stands in a leaf: on a pair, or on a value of a node of its chain. */
  datatype Spot = OnPair(i: nat) | OnValue(depth: nat, i: nat)

  /** The branches taken from the root, and the spot in the leaf. */
  datatype Place = Place(path: seq<nat>, spot: Spot)

  // ---------------------------------------------------------------- the code

  function SeekChain(c: Overflow.Chain, m: nat, depth: nat): Option<Spot> {
    if c.End? then None
    else if m < |c.values| then Some(OnValue(depth, m))
    else SeekChain(c.next, m - |c.values|, depth + 1)
  }

  function SeekLeaf(l: Leaves.Valid, m: nat): Option<Spot> {
    if m < |l.pairs| then Some(OnPair(m)) else SeekChain(l.chain, m - |l.pairs|, 0)
  }

  /** The chain with its nodes read down to the given depth. */
  function TouchChain(c: Overflow.Chain, depth: nat): (r: Overflow.Chain)
    ensures Overflow.Valid(c) ==> Overflow.Valid(r)
    ensures Overflow.Flat(r) == Overflow.Flat(c) && Overflow.Count(r) == Overflow.Count(c) && r.End? == c.End?
  {
    if c.End? then c
    else Overflow.Node(c.count, c.id, true, c.values, if depth == 0 then c.next else TouchChain(c.next, depth - 1))
  }

  function TouchLeaf(l: Leaves.Valid, s: Spot): Leaves.Valid {
    match s
    case OnPair(_) => l
    case OnValue(d, _) => Leaves.LeafData(l.pairs, TouchChain(l.chain, d))
  }

  /** travelDown loads the child, whether or not the search goes there. */
  function Touch(n: Node, i: nat): Node
    requires n.Internal? && i < |n.branches|
  {
    Internal(n.branches[i := n.branches[i].(loaded := true)], n.queue)
  }

  /** The edits findPendingEdits yields for branch i. */
  function PendingFor(n: Node, i: nat, lo: Option<Key>, hi: Option<Key>): seq<Edit>
    requires n.Internal? && i < |n.branches|
  {
    Between(n.queue, PendFrom(n.queue, ForkLo(n.branches, i, lo)), PendTo(n.queue, ForkHi(n.branches, i, hi)))
  }

  /** pendingRankDelta: sums guaranteed edits, or applies them deeply and reports nothing more to add. */
  function RankDelta(n: Node, i: nat, lo: Option<Key>, hi: Option<Key>): (r: (Node, int))
    requires n.Internal? && i < |n.branches|
    ensures r.0.Internal? && |r.0.branches| == |n.branches| && Height(r.0) == Height(n)
  {
    var t := Touch(n, i);
    MaxHeightIs(n.branches, t.branches);
    PushedHeight(t, i, lo, hi, true);
    if AllGuaranteed(PendingFor(n, i, lo, hi)) then (t, Deltas(PendingFor(n, i, lo, hi)))
    else (Push(t, i, lo, hi, true), 0)
  }

  function Under(i: nat, p: Option<Place>): Option<Place> {
    if p.None? then None else Some(Place([i] + p.value.path, p.value.spot))
  }

  function Seek(n: Node, m: int, lo: Option<Key>, hi: Option<Key>): (Node, Option<Place>)
    decreases Height(n), 1, 0
  {
    match n
    case Leaf(l) =>
      if m < 0 then (n, None)
      else
        var s := SeekLeaf(l, m);
        if s.None? then (n, None) else (Leaf(TouchLeaf(l, s.value)), Some(Place([], s.value)))
    case Internal(bs, q) => SeekFrom(n, 0, m, lo, hi)
  }

  /** The scan of seekRec from branch i on. */
  function SeekFrom(n: Node, i: nat, m: int, lo: Option<Key>, hi: Option<Key>): (Node, Option<Place>)
    requires n.Internal?
    decreases Height(n), 0, if i <= |n.branches| then |n.branches| - i else 0
  {
    if i >= |n.branches| then (n, None)
    else
      var (t, delta) := RankDelta(n, i, lo, hi);
      var available := t.branches[i].count + delta;
      if m < available then
        var p := Push(t, i, lo, hi, false);
        PushedHeight(t, i, lo, hi, false);
        ChildHeight(p, i);
        var (c, place) := Seek(p.branches[i].child, m, ForkLo(t.branches, i, lo), ForkHi(t.branches, i, hi));
        (PutChild(p, i, c), Under(i, place))
      else
        SeekFrom(t, i + 1, m - available, lo, hi)
  }

  // ---------------------------------------------------------------- what a place holds

  function ChainItem(c: Overflow.Chain, depth: nat, i: nat): Option<Value> {
    if c.End? then None
    else if depth == 0 then (if i < |c.values| then Some(c.values[i]) else None)
    else ChainItem(c.next, depth - 1, i)
  }

  function LeafItem(l: Leaves.Valid, s: Spot): Option<Pair> {
    match s
    case OnPair(i) => if i < |l.pairs| then Some(l.pairs[i]) else None
    case OnValue(d, i) =>
      if |l.pairs| == 0 then None
      else
        var v := ChainItem(l.chain, d, i);
        if v.None? then None else Some(Pair(Last(l.pairs).key, v.value))
  }

  /** The item an iterator at this place reads. */
  function ItemAt(n: Node, p: Place): Option<Pair>
    decreases n
  {
    match n
    case Leaf(l) => if |p.path| == 0 then LeafItem(l, p.spot) else None
    case Internal(bs, _) =>
      if |p.path| == 0 || p.path[0] >= |bs| then None
      else ItemAt(bs[p.path[0]].child, Place(p.path[1..], p.spot))
  }

  // ---------------------------------------------------------------- when counts can be trusted

  /**
   * The count of branch i with its pending edits can be worked out: a leaf
   * child only needs its guaranteed edits to be truthful, an internal child
   * needs all of its pending edits guaranteed.
   */
  ghost predicate Countable(n: Node, i: nat, lo: Option<Key>, hi: Option<Key>)
    requires n.Internal? && i < |n.branches|
  {
    var b, es, c := n.branches[i], Range(n.branches, n.queue, i), Settled(n.branches, n.queue, i);
    && b.count == ItemCount(b.child)
    && (b.child.Leaf? ==> LeafTruthful(b.child.leaf, es))
    && (b.child.Internal? ==>
          AllGuaranteed(es) && Counted(c) && Honest(c, Lo(n.branches, i, lo), Hi(n.branches, i, hi)))
  }

  ghost predicate Seekable(n: Node, lo: Option<Key>, hi: Option<Key>) {
    n.Internal? ==> forall i :: 0 <= i < |n.branches| ==> Countable(n, i, lo, hi)
  }

  /** Any height, when all queued edits are guaranteed and truthful. */
  lemma HonestSeekable(n: Node, lo: Option<Key>, hi: Option<Key>)
    requires Ordered(n, lo, hi) && Counted(n) && Honest(n, lo, hi)
    ensures Seekable(n, lo, hi)
  {
    hide Ordered, ApplyMany;
    if n.Internal? {
      forall i | 0 <= i < |n.branches|
        ensures Countable(n, i, lo, hi)
      {
        HonestEdits(n, lo, hi);
        ChildSettles(n, i, lo, hi);
        SettledHonest(n, i, lo, hi);
      }
    }
  }

  /** Any edits, when the children are leaves and the edits that are flagged guaranteed are truthful. */
  lemma LeafChildrenSeekable(n: Node, lo: Option<Key>, hi: Option<Key>)
    requires n.Internal? && Ordered(n, lo, hi) && Counted(n)
    requires forall i :: 0 <= i < |n.branches| ==> n.branches[i].child.Leaf?
    requires forall k :: Within(lo, hi, k) ==> Truthful(Pending(n, k), Held(n, k))
    ensures Seekable(n, lo, hi)
  {
    forall i | 0 <= i < |n.branches|
      ensures Countable(n, i, lo, hi)
    {
      ChildSettles(n, i, lo, hi);
    }
  }

  // ---------------------------------------------------------------- one branch of the scan

  lemma {:induction false} ManyLeafDepth(l: Leaves.Valid, es: seq<Edit>)
    ensures ApplyMany(Leaf(l), es, true) == ApplyMany(Leaf(l), es, false)
    ensures ApplyMany(Leaf(l), es, false).Leaf?
    decreases |es|
  {
    if |es| > 0 {
      ManyLeafDepth(Leaves.Edited(l, es[0]), es[1..]);
    }
  }

  lemma PendingIsRange(n: Node, i: nat, lo: Option<Key>, hi: Option<Key>)
    requires n.Internal? && Ordered(n, lo, hi) && Parsed(n) && i < |n.branches|
    ensures PendingFor(n, i, lo, hi) == Range(n.branches, n.queue, i)
  {
    PendIsRange(n, i, lo, hi);
  }

  /** Equal up to counts and load marks. */
  ghost predicate SameBranches(bs: seq<Branch>, cs: seq<Branch>) {
    |bs| == |cs| && forall j :: 0 <= j < |bs| ==> bs[j].minKey == cs[j].minKey && bs[j].child == cs[j].child
  }

  lemma SameOrdered(n: Node, t: Node, lo: Option<Key>, hi: Option<Key>)
    requires n.Internal? && t.Internal? && n.queue == t.queue && SameBranches(n.branches, t.branches)
    requires Ordered(n, lo, hi) && Parsed(n)
    ensures Ordered(t, lo, hi) && Parsed(t)
  {
    assert Separators(t.branches, lo, hi);
    forall j | 0 <= j < |n.branches|
      ensures Ordered(t.branches[j].child, Lo(t.branches, j, lo), Hi(t.branches, j, hi))
    {
      assert Lo(t.branches, j, lo) == Lo(n.branches, j, lo) && Hi(t.branches, j, hi) == Hi(n.branches, j, hi);
    }
  }

  lemma SameSettled(n: Node, t: Node, j: nat)
    requires n.Internal? && t.Internal? && n.queue == t.queue && SameBranches(n.branches, t.branches)
    requires j < |n.branches|
    ensures Range(t.branches, t.queue, j) == Range(n.branches, n.queue, j)
    ensures Settled(t.branches, t.queue, j) == Settled(n.branches, n.queue, j)
  {
    RangeSame(n.branches, t.branches, n.queue, j);
  }

  lemma SameContent(n: Node, t: Node)
    requires n.Internal? && t.Internal? && n.queue == t.queue && SameBranches(n.branches, t.branches)
    ensures Content(t) == Content(n)
    ensures forall j :: 0 <= j <= |n.branches| ==>
              ContentFrom(t.branches, t.queue, j) == ContentFrom(n.branches, n.queue, j)
  {
    forall j | 0 <= j < |n.branches|
      ensures Content(Settled(n.branches, n.queue, j)) == Content(Settled(t.branches, t.queue, j))
    {
      SameSettled(n, t, j);
    }
    forall j | 0 <= j <= |n.branches|
      ensures ContentFrom(t.branches, t.queue, j) == ContentFrom(n.branches, n.queue, j)
    {
      ContentFromSame(n.branches, n.queue, t.branches, t.queue, j);
    }
  }

  /** The branches left of i are countable and have only guaranteed edits waiting. */
  ghost predicate LeftPassed(n: Node, i: nat, lo: Option<Key>, hi: Option<Key>)
    requires n.Internal? && i <= |n.branches|
  {
    forall j :: 0 <= j < i ==> Countable(n, j, lo, hi) && AllGuaranteed(Range(n.branches, n.queue, j))
  }

  /** The scan has passed the branches left of i, and can go on through all others. */
  ghost predicate Passed(n: Node, i: nat, lo: Option<Key>, hi: Option<Key>)
    requires n.Internal? && i <= |n.branches|
  {
    && (forall j :: 0 <= j < |n.branches| ==> Countable(n, j, lo, hi))
    && (forall j :: 0 <= j < i ==> AllGuaranteed(Range(n.branches, n.queue, j)))
  }

  /**
   * What one turn of the scan establishes: the tree reads the same, its
   * branches are as countable as before, and the number the scan compares with
   * is the number of items in the branch.
   */
  ghost predicate Turned(n: Node, i: nat, t: Node, delta: int, lo: Option<Key>, hi: Option<Key>)
    requires n.Internal? && i < |n.branches|
  {
    && t.Internal? && |t.branches| == |n.branches| && Height(t) == Height(n)
    && Ordered(t, lo, hi) && Parsed(t)
    && (forall j :: 0 <= j <= |n.branches| ==>
          ContentFrom(t.branches, t.queue, j) == ContentFrom(n.branches, n.queue, j))
    && Settled(t.branches, t.queue, i) == Settled(n.branches, n.queue, i)
    && Passed(t, i + 1, lo, hi)
    && t.branches[i].count + delta == |Content(Settled(n.branches, n.queue, i))|
  }

  lemma CountableMoves(n: Node, t: Node, j: nat, lo: Option<Key>, hi: Option<Key>)
    requires n.Internal? && t.Internal? && |n.branches| == |t.branches| && j < |n.branches|
    requires forall x :: 0 <= x < |n.branches| ==> n.branches[x].minKey == t.branches[x].minKey
    requires t.branches[j].count == n.branches[j].count && t.branches[j].child == n.branches[j].child
    requires Range(t.branches, t.queue, j) == Range(n.branches, n.queue, j)
    requires Countable(n, j, lo, hi)
    ensures Countable(t, j, lo, hi)
  {
  }

  lemma GuaranteedTurn(n: Node, i: nat, lo: Option<Key>, hi: Option<Key>)
    requires n.Internal? && Ordered(n, lo, hi) && Parsed(n) && i < |n.branches|
    requires Passed(n, i, lo, hi)
    requires AllGuaranteed(PendingFor(n, i, lo, hi))
    ensures var (t, delta) := RankDelta(n, i, lo, hi); Turned(n, i, t, delta, lo, hi)
  {
    var t := Touch(n, i);
    TouchKeeps(n, i, lo, hi);
    SameContent(n, t);
    SameSettled(n, t, i);
    PendingIsRange(n, i, lo, hi);
    GuaranteedAll(Range(n.branches, n.queue, i));
    GuaranteedBranch(n, i, lo, hi);
    assert Passed(t, i + 1, lo, hi);
  }

  lemma GuaranteedBranch(n: Node, i: nat, lo: Option<Key>, hi: Option<Key>)
    requires n.Internal? && Ordered(n, lo, hi) && i < |n.branches| && Countable(n, i, lo, hi)
    requires AllGuaranteed(Range(n.branches, n.queue, i))
    ensures |Content(Settled(n.branches, n.queue, i))|
         == n.branches[i].count + GuaranteedDeltas(Range(n.branches, n.queue, i))
  {
    SettledOrdered(n, i, lo, hi);
    SettledCount(n, i);
    var c := Settled(n.branches, n.queue, i);
    if n.branches[i].child.Leaf? {
      ManyLeafDepth(n.branches[i].child.leaf, Range(n.branches, n.queue, i));
      Overflow.CountIsLength(c.leaf.chain);
    } else {
      ContentCount(c, Lo(n.branches, i, lo), Hi(n.branches, i, hi));
    }
  }

  lemma DeepIsShallow(n: Node, i: nat, lo: Option<Key>, hi: Option<Key>)
    requires n.Internal? && i < |n.branches| && n.branches[i].child.Leaf?
    ensures Push(n, i, lo, hi, true) == Push(n, i, lo, hi, false)
  {
    ManyLeafDepth(n.branches[i].child.leaf, PendingFor(n, i, lo, hi));
  }

  lemma PushFrom(n: Node, i: nat, lo: Option<Key>, hi: Option<Key>, j: nat)
    requires n.Internal? && Ordered(n, lo, hi) && Parsed(n) && i < |n.branches| && j <= |n.branches|
    ensures var p := Push(n, i, lo, hi, false);
            ContentFrom(p.branches, p.queue, j) == ContentFrom(n.branches, n.queue, j)
  {
    var p := Push(n, i, lo, hi, false);
    forall x | 0 <= x < |n.branches|
      ensures Content(Settled(n.branches, n.queue, x)) == Content(Settled(p.branches, p.queue, x))
    {
      PushSettled(n, i, lo, hi, x);
    }
    ContentFromSame(n.branches, n.queue, p.branches, p.queue, j);
  }

  lemma PushCountable(n: Node, i: nat, lo: Option<Key>, hi: Option<Key>, j: nat)
    requires n.Internal? && Ordered(n, lo, hi) && Parsed(n) && i < |n.branches| && j < |n.branches| && i != j
    requires Countable(n, j, lo, hi)
    ensures Countable(Push(n, i, lo, hi, false), j, lo, hi)
  {
    hide Apply, ApplyMany, Except, Hi, Honest, Range, Separators, Settled, Start;
    var bs, q, p := n.branches, n.queue, Push(n, i, lo, hi, false);
    PendIsRange(n, i, lo, hi);
    RangeAfter(bs, q, lo, hi, i, j);
    RangeSame(bs, p.branches, p.queue, j);
    CountableMoves(n, p, j, lo, hi);
  }

  lemma PushedCountable(u: Node, i: nat, lo: Option<Key>, hi: Option<Key>)
    requires u.Internal? && Ordered(u, lo, hi) && Parsed(u) && i < |u.branches| && u.branches[i].child.Leaf?
    ensures Countable(Push(u, i, lo, hi, false), i, lo, hi)
  {
    hide Ordered, Parsed;
    PushedRange(u, i, lo, hi);
    ManyLeafDepth(u.branches[i].child.leaf, Range(u.branches, u.queue, i));
  }

  lemma PushPassed(u: Node, i: nat, lo: Option<Key>, hi: Option<Key>)
    requires u.Internal? && Ordered(u, lo, hi) && Parsed(u) && i < |u.branches| && u.branches[i].child.Leaf?
    requires Passed(u, i, lo, hi)
    ensures Passed(Push(u, i, lo, hi, false), i + 1, lo, hi)
  {
    hide Ordered, Parsed, Countable, ApplyMany;
    var t := Push(u, i, lo, hi, false);
    PushedRange(u, i, lo, hi);
    ManyLeafDepth(u.branches[i].child.leaf, Range(u.branches, u.queue, i));
    forall j | 0 <= j < |u.branches|
      ensures Countable(t, j, lo, hi)
      ensures j < i ==> AllGuaranteed(Range(t.branches, t.queue, j))
    {
      if j == i {
        PushedCountable(u, i, lo, hi);
      } else {
        PushCountable(u, i, lo, hi, j);
        PushedOther(u, i, lo, hi, j);
      }
    }
  }

  lemma PushedOther(u: Node, i: nat, lo: Option<Key>, hi: Option<Key>, j: nat)
    requires u.Internal? && Ordered(u, lo, hi) && Parsed(u) && i < |u.branches| && j < |u.branches| && i != j
    ensures var t := Push(u, i, lo, hi, false); Range(t.branches, t.queue, j) == Range(u.branches, u.queue, j)
  {
    var t := Push(u, i, lo, hi, false);
    PendIsRange(u, i, lo, hi);
    RangeAfter(u.branches, u.queue, lo, hi, i, j);
    RangeSame(u.branches, t.branches, t.queue, j);
  }

  lemma PushTurn(u: Node, i: nat, lo: Option<Key>, hi: Option<Key>)
    requires u.Internal? && Ordered(u, lo, hi) && Parsed(u) && i < |u.branches| && u.branches[i].child.Leaf?
    requires Passed(u, i, lo, hi)
    ensures Turned(u, i, Push(u, i, lo, hi, false), 0, lo, hi)
  {
    hide Ordered, Parsed, Passed, ApplyMany, Range;
    var t := Push(u, i, lo, hi, false);
    PushedChild(u, i, lo, hi, false);
    forall j | 0 <= j <= |u.branches|
      ensures ContentFrom(t.branches, t.queue, j) == ContentFrom(u.branches, u.queue, j)
    {
      PushFrom(u, i, lo, hi, j);
    }
    PushPassed(u, i, lo, hi);
    PushSettled(u, i, lo, hi, i);
    PushedItems(u, i, lo, hi);
  }

  lemma PushedItems(u: Node, i: nat, lo: Option<Key>, hi: Option<Key>)
    requires u.Internal? && Ordered(u, lo, hi) && Parsed(u) && i < |u.branches| && u.branches[i].child.Leaf?
    ensures Push(u, i, lo, hi, false).branches[i].count == |Content(Settled(u.branches, u.queue, i))|
  {
    hide Ordered, Parsed;
    PushedRange(u, i, lo, hi);
    ManyLeafDepth(u.branches[i].child.leaf, Range(u.branches, u.queue, i));
    Overflow.CountIsLength(Push(u, i, lo, hi, false).branches[i].child.leaf.chain);
  }

  lemma TurnedVia(n: Node, u: Node, i: nat, t: Node, lo: Option<Key>, hi: Option<Key>)
    requires n.Internal? && u.Internal? && n.queue == u.queue && SameBranches(n.branches, u.branches)
    requires i < |n.branches| && Turned(u, i, t, 0, lo, hi)
    ensures Turned(n, i, t, 0, lo, hi)
  {
    SameContent(n, u);
    SameSettled(n, u, i);
    MaxHeightIs(n.branches, u.branches);
  }

  /** Marking a child as loaded changes nothing the scan looks at. */
  lemma TouchKeeps(n: Node, i: nat, lo: Option<Key>, hi: Option<Key>)
    requires n.Internal? && Ordered(n, lo, hi) && Parsed(n) && i < |n.branches|
    requires Passed(n, i, lo, hi)
    ensures var u := Touch(n, i);
            && SameBranches(n.branches, u.branches) && Ordered(u, lo, hi) && Parsed(u)
            && Passed(u, i, lo, hi)
            && Range(u.branches, u.queue, i) == Range(n.branches, n.queue, i)
  {
    var u := Touch(n, i);
    assert SameBranches(n.branches, u.branches);
    SameOrdered(n, u, lo, hi);
    forall j | 0 <= j < |n.branches|
      ensures Countable(u, j, lo, hi)
      ensures Range(u.branches, u.queue, j) == Range(n.branches, n.queue, j)
    {
      SameSettled(n, u, j);
      CountableMoves(n, u, j, lo, hi);
    }
  }

  lemma AppliedTurn(n: Node, i: nat, lo: Option<Key>, hi: Option<Key>)
    requires n.Internal? && Ordered(n, lo, hi) && Parsed(n) && i < |n.branches|
    requires Passed(n, i, lo, hi)
    requires !AllGuaranteed(PendingFor(n, i, lo, hi))
    ensures var (t, delta) := RankDelta(n, i, lo, hi); Turned(n, i, t, delta, lo, hi)
  {
    PendingIsRange(n, i, lo, hi);
    assert Countable(n, i, lo, hi);
    var u := Touch(n, i);
    TouchKeeps(n, i, lo, hi);
    DeepIsShallow(u, i, lo, hi);
    PushTurn(u, i, lo, hi);
    TurnedVia(n, u, i, Push(u, i, lo, hi, false), lo, hi);
  }

  lemma ScanTurn(n: Node, i: nat, lo: Option<Key>, hi: Option<Key>)
    requires n.Internal? && Ordered(n, lo, hi) && Parsed(n) && i < |n.branches|
    requires Passed(n, i, lo, hi)
    ensures var (t, delta) := RankDelta(n, i, lo, hi); Turned(n, i, t, delta, lo, hi)
  {
    if AllGuaranteed(PendingFor(n, i, lo, hi)) {
      GuaranteedTurn(n, i, lo, hi);
    } else {
      AppliedTurn(n, i, lo, hi);
    }
  }

  // ---------------------------------------------------------------- seek lands

  /** The number of items in the branches left of i. */
  function ItemsLeft(n: Node, i: nat): int
    requires n.Internal? && i <= |n.branches|
  {
    |Content(n)| - |ContentFrom(n.branches, n.queue, i)|
  }

  function ChainOffset(c: Overflow.Chain, depth: nat, i: nat): nat {
    if c.End? || depth == 0 then i else |c.values| + ChainOffset(c.next, depth - 1, i)
  }

  /** The number of items before a place in the in-order contents. */
  function Offset(n: Node, p: Place): int
    decreases n
  {
    match n
    case Leaf(l) =>
      (match p.spot
       case OnPair(i) => i
       case OnValue(d, i) => |l.pairs| + ChainOffset(l.chain, d, i))
    case Internal(bs, _) =>
      if |p.path| == 0 || p.path[0] >= |bs| then 0
      else ItemsLeft(n, p.path[0]) + Offset(bs[p.path[0]].child, Place(p.path[1..], p.spot))
  }

  /**
   * A place whose path is settled: nothing is queued for the branches on it,
   * and what is queued left of it is guaranteed and counted.
   */
  ghost predicate OnPath(n: Node, p: Place, lo: Option<Key>, hi: Option<Key>)
    decreases n
  {
    match n
    case Leaf(l) => |p.path| == 0 && LeafItem(l, p.spot).Some?
    case Internal(bs, q) =>
      && |p.path| > 0 && p.path[0] < |bs|
      && Range(bs, q, p.path[0]) == []
      && LeftPassed(n, p.path[0], lo, hi)
      && OnPath(bs[p.path[0]].child, Place(p.path[1..], p.spot), Lo(bs, p.path[0], lo), Hi(bs, p.path[0], hi))
  }

  lemma {:induction false} ChainOffsetIs(c: Overflow.Chain, depth: nat, i: nat)
    requires ChainItem(c, depth, i).Some?
    ensures var o := ChainOffset(c, depth, i);
            o < |Overflow.Flat(c)| && ChainItem(c, depth, i) == Some(Overflow.Flat(c)[o])
  {
    if depth > 0 {
      ChainOffsetIs(c.next, depth - 1, i);
    }
  }

  lemma {:induction false} ContentFromSuffix(n: Node, i: nat)
    requires n.Internal? && i <= |n.branches|
    ensures |ContentFrom(n.branches, n.queue, i)| <= |Content(n)|
    ensures ContentFrom(n.branches, n.queue, i) == Content(n)[ItemsLeft(n, i)..]
    decreases i
  {
    hide ApplyMany, ContentFrom, Last, Leaves.Items, Range;
    if i > 0 {
      ContentFromSuffix(n, i - 1);
      ContentFromStep(n.branches, n.queue, i - 1);
    }
  }

  /** A place that reads an item, on a path for which nothing is queued. */
  ghost predicate Stands(n: Node, p: Place)
    decreases n
  {
    match n
    case Leaf(l) => |p.path| == 0 && LeafItem(l, p.spot).Some?
    case Internal(bs, q) =>
      && |p.path| > 0 && p.path[0] < |bs|
      && Range(bs, q, p.path[0]) == []
      && Stands(bs[p.path[0]].child, Place(p.path[1..], p.spot))
  }

  lemma {:induction false} PathStands(n: Node, p: Place, lo: Option<Key>, hi: Option<Key>)
    requires OnPath(n, p, lo, hi)
    ensures Stands(n, p)
    decreases n
  {
    hide LeftPassed, Range;
    if n.Internal? {
      var i := p.path[0];
      PathStands(n.branches[i].child, Place(p.path[1..], p.spot), Lo(n.branches, i, lo), Hi(n.branches, i, hi));
    }
  }

  /** The item at a settled place is the one its offset names in the contents. */
  lemma {:induction false} OffsetIsItem(n: Node, p: Place)
    requires Stands(n, p)
    ensures 0 <= Offset(n, p) < |Content(n)|
    ensures ItemAt(n, p) == Some(Content(n)[Offset(n, p)])
    decreases n
  {
    hide Apply, ContentFrom, Range;
    match n
    case Leaf(l) =>
      if p.spot.OnValue? {
        ChainOffsetIs(l.chain, p.spot.depth, p.spot.i);
      }
    case Internal(bs, q) =>
      var i := p.path[0];
      OffsetIsItem(bs[i].child, Place(p.path[1..], p.spot));
      ContentFromSuffix(n, i);
      ContentFromStep(bs, q, i);
      assert Settled(bs, q, i) == bs[i].child;
  }

  lemma {:induction false} SeekChainLands(c: Overflow.Chain, m: nat, depth: nat)
    requires m < |Overflow.Flat(c)|
    ensures var s := SeekChain(c, m, depth);
            && s.Some? && s.value.OnValue? && s.value.depth >= depth
            && ChainItem(c, s.value.depth - depth, s.value.i).Some?
            && ChainOffset(c, s.value.depth - depth, s.value.i) == m
  {
    if m >= |c.values| {
      SeekChainLands(c.next, m - |c.values|, depth + 1);
    }
  }

  lemma {:induction false} TouchedItem(c: Overflow.Chain, touched: nat, depth: nat, i: nat)
    ensures ChainItem(TouchChain(c, touched), depth, i) == ChainItem(c, depth, i)
    ensures ChainOffset(TouchChain(c, touched), depth, i) == ChainOffset(c, depth, i)
  {
    if c.Node? && touched > 0 && depth > 0 {
      TouchedItem(c.next, touched - 1, depth - 1, i);
    }
  }

  lemma SeekLeafLands(l: Leaves.Valid, m: nat, lo: Option<Key>, hi: Option<Key>)
    requires m < |Leaves.Items(l)|
    ensures SeekLeaf(l, m).Some?
    ensures var s := SeekLeaf(l, m).value; var p, t := Place([], s), Leaf(TouchLeaf(l, s));
            OnPath(t, p, lo, hi) && Offset(t, p) == m && Content(t) == Content(Leaf(l))
  {
    if m >= |l.pairs| {
      SeekChainLands(l.chain, m - |l.pairs|, 0);
      var s := SeekLeaf(l, m).value;
      TouchedItem(l.chain, s.depth, s.depth, s.i);
    }
  }

  /** The place found has exactly m items before it, and the tree still reads the same. */
  ghost predicate Lands(n: Node, r: (Node, Option<Place>), m: int, lo: Option<Key>, hi: Option<Key>) {
    && r.1.Some?
    && OnPath(r.0, r.1.value, lo, hi)
    && Offset(r.0, r.1.value) == m
    && Content(r.0) == Content(n)
  }

  lemma SettledSeekable(n: Node, i: nat, lo: Option<Key>, hi: Option<Key>)
    requires n.Internal? && Ordered(n, lo, hi) && i < |n.branches| && Countable(n, i, lo, hi)
    ensures Seekable(Settled(n.branches, n.queue, i), Lo(n.branches, i, lo), Hi(n.branches, i, hi))
  {
    var c := Settled(n.branches, n.queue, i);
    SettledOrdered(n, i, lo, hi);
    if n.branches[i].child.Leaf? {
      ManyLeafDepth(n.branches[i].child.leaf, Range(n.branches, n.queue, i));
    } else {
      HonestSeekable(c, Lo(n.branches, i, lo), Hi(n.branches, i, hi));
    }
  }

  lemma {:induction false} SeekPlaces(n: Node, m: nat, lo: Option<Key>, hi: Option<Key>)
    requires Ordered(n, lo, hi) && Parsed(n) && Seekable(n, lo, hi) && m < |Content(n)|
    ensures Lands(n, Seek(n, m, lo, hi), m, lo, hi)
    decreases Height(n), 1, 0
  {
    match n
    case Leaf(l) => SeekLeafLands(l, m, lo, hi);
    case Internal(bs, q) => SeekFromPlaces(n, 0, m, lo, hi);
  }

  lemma PassedHere(n: Node, i: nat, lo: Option<Key>, hi: Option<Key>)
    requires n.Internal? && i <= |n.branches| && Passed(n, i, lo, hi)
    requires 0 < |ContentFrom(n.branches, n.queue, i)|
    ensures i < |n.branches| && Countable(n, i, lo, hi)
  {
  }

  lemma TurnedPasses(n: Node, i: nat, t: Node, delta: int, lo: Option<Key>, hi: Option<Key>)
    requires n.Internal? && i < |n.branches| && Turned(n, i, t, delta, lo, hi)
    ensures t.Internal? && |t.branches| == |n.branches| && Height(t) == Height(n)
    ensures Ordered(t, lo, hi) && Parsed(t) && Passed(t, i, lo, hi) && Passed(t, i + 1, lo, hi)
    ensures t.branches[i].count + delta == |Content(Settled(n.branches, n.queue, i))|
  {
  }

  lemma {:induction false} SeekFromPlaces(n: Node, i: nat, m: nat, lo: Option<Key>, hi: Option<Key>)
    requires n.Internal? && Ordered(n, lo, hi) && Parsed(n) && i <= |n.branches|
    requires Passed(n, i, lo, hi)
    requires m < |ContentFrom(n.branches, n.queue, i)| <= |Content(n)|
    ensures Lands(n, SeekFrom(n, i, m, lo, hi), ItemsLeft(n, i) + m, lo, hi)
    decreases Height(n), 0, 1 + |n.branches| - i
  {
    hide Ordered, Parsed, Passed, Turned, RankDelta, ContentFrom, Content, Settled, SeekFrom;
    PassedHere(n, i, lo, hi);
    var (t, delta) := RankDelta(n, i, lo, hi);
    ScanTurn(n, i, lo, hi);
    var here := Content(Settled(n.branches, n.queue, i));
    ContentFromStep(n.branches, n.queue, i);
    if m < |here| {
      Descends(n, i, m, t, delta, lo, hi);
    } else {
      TurnedContent(n, i, t, delta, lo, hi);
      TurnedPasses(n, i, t, delta, lo, hi);
      SeekFromPlaces(t, i + 1, m - |here|, lo, hi);
      SkipsOn(n, i, m, t, delta, lo, hi);
    }
  }

  lemma SkipsOn(n: Node, i: nat, m: int, t: Node, delta: int, lo: Option<Key>, hi: Option<Key>)
    requires n.Internal? && i < |n.branches| && (t, delta) == RankDelta(n, i, lo, hi)
    requires m >= t.branches[i].count + delta
    ensures SeekFrom(n, i, m, lo, hi) == SeekFrom(t, i + 1, m - (t.branches[i].count + delta), lo, hi)
  {
    hide Height, Push, RankDelta, Seek, Under;
  }

  lemma TurnedContent(n: Node, i: nat, t: Node, delta: int, lo: Option<Key>, hi: Option<Key>)
    requires n.Internal? && i < |n.branches| && Turned(n, i, t, delta, lo, hi)
    ensures Content(t) == Content(n)
    ensures ContentFrom(t.branches, t.queue, i) == ContentFrom(n.branches, n.queue, i)
    ensures ContentFrom(t.branches, t.queue, i + 1) == ContentFrom(n.branches, n.queue, i + 1)
  {
    assert ContentFrom(t.branches, t.queue, 0) == ContentFrom(n.branches, n.queue, 0);
  }

  /** The child the scan goes down into: settled, ready to be searched, one level lower. */
  lemma DescentChild(n: Node, i: nat, t: Node, delta: int, lo: Option<Key>, hi: Option<Key>)
    requires n.Internal? && Ordered(n, lo, hi) && Parsed(n) && i < |n.branches|
    requires Countable(n, i, lo, hi)
    requires (t, delta) == RankDelta(n, i, lo, hi) && Turned(n, i, t, delta, lo, hi)
    ensures var p := Push(t, i, lo, hi, false); var c := p.branches[i].child;
            var flo, fhi := ForkLo(t.branches, i, lo), ForkHi(t.branches, i, hi);
            && c == Settled(n.branches, n.queue, i)
            && Range(p.branches, p.queue, i) == []
            && Content(p) == Content(n)
            && ContentFrom(p.branches, p.queue, i) == ContentFrom(n.branches, n.queue, i)
            && flo == Lo(p.branches, i, lo) && fhi == Hi(p.branches, i, hi)
            && Ordered(c, flo, fhi) && Parsed(c) && Seekable(c, flo, fhi) && Height(c) < Height(n)
  {
    PushedChild(t, i, lo, hi, false);
    PushedRange(t, i, lo, hi);
    PushContent(t, i, lo, hi);
    PushFrom(t, i, lo, hi, i);
    TurnedContent(n, i, t, delta, lo, hi);
    SettledSeekable(n, i, lo, hi);
    ForksSame(n, i, lo, hi);
  }

  /** Going down keeps the branches to the left countable. */
  lemma DescentPassed(t: Node, i: nat, c: Node, lo: Option<Key>, hi: Option<Key>)
    requires t.Internal? && Ordered(t, lo, hi) && Parsed(t) && i < |t.branches| && Passed(t, i, lo, hi)
    ensures var r := PutChild(Push(t, i, lo, hi, false), i, c);
            LeftPassed(r, i, lo, hi)
  {
    hide Ordered, Parsed, Countable, ApplyMany;
    var p := Push(t, i, lo, hi, false);
    var r := PutChild(p, i, c);
    forall j | 0 <= j < i
      ensures Countable(r, j, lo, hi) && AllGuaranteed(Range(r.branches, r.queue, j))
    {
      PushCountable(t, i, lo, hi, j);
      PushedOther(t, i, lo, hi, j);
      RangeSame(p.branches, r.branches, p.queue, j);
      CountableMoves(p, r, j, lo, hi);
    }
  }

  lemma {:induction false} Descends(n: Node, i: nat, m: nat, t: Node, delta: int, lo: Option<Key>, hi: Option<Key>)
    requires n.Internal? && Ordered(n, lo, hi) && Parsed(n) && i < |n.branches|
    requires Countable(n, i, lo, hi)
    requires (t, delta) == RankDelta(n, i, lo, hi) && Turned(n, i, t, delta, lo, hi)
    requires m < |Content(Settled(n.branches, n.queue, i))|
    ensures Lands(n, SeekFrom(n, i, m, lo, hi), ItemsLeft(n, i) + m, lo, hi)
    decreases Height(n), 0, 0
  {
    hide Ordered, Parsed, Passed, Turned, Countable, RankDelta, ContentFrom, Content, Settled, Seek, SeekFrom, Lands,
      Range, Push, PutChild;
    TurnedPasses(n, i, t, delta, lo, hi);
    DescentChild(n, i, t, delta, lo, hi);
    var p := Push(t, i, lo, hi, false);
    var c := p.branches[i].child;
    var flo, fhi := ForkLo(t.branches, i, lo), ForkHi(t.branches, i, hi);
    SeekPlaces(c, m, flo, fhi);
    var r := Seek(c, m, flo, fhi);
    SeeksDown(n, i, m, t, delta, lo, hi);
    DescentPassed(t, i, r.0, lo, hi);
    PutsPlace(n, p, i, r, m, lo, hi);
  }

  lemma SeeksDown(n: Node, i: nat, m: int, t: Node, delta: int, lo: Option<Key>, hi: Option<Key>)
    requires n.Internal? && i < |n.branches| && (t, delta) == RankDelta(n, i, lo, hi)
    requires m < t.branches[i].count + delta
    ensures var p := Push(t, i, lo, hi, false);
            var r := Seek(p.branches[i].child, m, ForkLo(t.branches, i, lo), ForkHi(t.branches, i, hi));
            SeekFrom(n, i, m, lo, hi) == (PutChild(p, i, r.0), Under(i, r.1))
  {
  }

  lemma PutChildFrom(p: Node, i: nat, c: Node)
    requires p.Internal? && i < |p.branches|
    requires Range(p.branches, p.queue, i) == []
    requires Content(c) == Content(p.branches[i].child)
    ensures var r := PutChild(p, i, c);
            && Content(r) == Content(p)
            && ContentFrom(r.branches, r.queue, i) == ContentFrom(p.branches, p.queue, i)
            && Range(r.branches, r.queue, i) == []
  {
    var bs, q, cs := p.branches, p.queue, PutChild(p, i, c).branches;
    forall j | 0 <= j < |bs|
      ensures Content(Settled(bs, q, j)) == Content(Settled(cs, q, j))
    {
      RangeSame(bs, cs, q, j);
    }
    RangeSame(bs, cs, q, i);
    ContentFromSame(bs, q, cs, q, 0);
    ContentFromSame(bs, q, cs, q, i);
  }

  lemma PutsPlace(n: Node, p: Node, i: nat, r: (Node, Option<Place>), m: nat, lo: Option<Key>, hi: Option<Key>)
    requires n.Internal? && p.Internal? && |n.branches| == |p.branches| && i < |p.branches|
    requires Range(p.branches, p.queue, i) == []
    requires Content(p) == Content(n)
    requires ContentFrom(p.branches, p.queue, i) == ContentFrom(n.branches, n.queue, i)
    requires Lands(p.branches[i].child, r, m, Lo(p.branches, i, lo), Hi(p.branches, i, hi))
    requires LeftPassed(PutChild(p, i, r.0), i, lo, hi)
    ensures Lands(n, (PutChild(p, i, r.0), Under(i, r.1)), ItemsLeft(n, i) + m, lo, hi)
  {
    PutChildFrom(p, i, r.0);
    var t, pl := PutChild(p, i, r.0), Under(i, r.1).value;
    assert pl.path[1..] == r.1.value.path;
    assert Lo(t.branches, i, lo) == Lo(p.branches, i, lo) && Hi(t.branches, i, hi) == Hi(p.branches, i, hi);
  }

  lemma ForksSame(n: Node, i: nat, lo: Option<Key>, hi: Option<Key>)
    requires n.Internal? && Ordered(n, lo, hi) && Parsed(n) && i < |n.branches|
    ensures var t := RankDelta(n, i, lo, hi).0; var p := Push(t, i, lo, hi, false);
            && ForkLo(t.branches, i, lo) == Lo(n.branches, i, lo) == Lo(p.branches, i, lo)
            && ForkHi(t.branches, i, hi) == Hi(n.branches, i, hi) == Hi(p.branches, i, hi)
  {
    hide RankDelta, Push, Ordered, Parsed;
    PendIsRange(n, i, lo, hi);
    DeltaSeparators(n, i, lo, hi);
    PushSeparators(RankDelta(n, i, lo, hi).0, i, lo, hi);
  }

  lemma PushSeparators(n: Node, i: nat, lo: Option<Key>, hi: Option<Key>)
    requires n.Internal? && i < |n.branches|
    ensures forall j :: 0 <= j < |n.branches| ==> Push(n, i, lo, hi, false).branches[j].minKey == n.branches[j].minKey
    ensures forall j :: 0 <= j < |n.branches| ==> Push(n, i, lo, hi, true).branches[j].minKey == n.branches[j].minKey
  {
    hide ApplyMany, Between, Except;
  }

  lemma DeltaSeparators(n: Node, i: nat, lo: Option<Key>, hi: Option<Key>)
    requires n.Internal? && i < |n.branches|
    ensures forall j :: 0 <= j < |n.branches| ==> RankDelta(n, i, lo, hi).0.branches[j].minKey == n.branches[j].minKey
  {
    hide Push, Deltas, PendingFor;
    PushSeparators(Touch(n, i), i, lo, hi);
  }

  /**
   * seek(m) lands on the m-th item of the in-order contents, pending edits
   * included, and leaves the contents as they were.
   */
  lemma SeekLands(n: Node, m: nat, lo: Option<Key>, hi: Option<Key>)
    requires Ordered(n, lo, hi) && Parsed(n) && Seekable(n, lo, hi) && m < |Content(n)|
    ensures var (t, place) := Seek(n, m, lo, hi);
            && Content(t) == Content(n)
            && place.Some? && ItemAt(t, place.value) == Some(Content(n)[m])
  {
    SeekPlaces(n, m, lo, hi);
    var (t, place) := Seek(n, m, lo, hi);
    PathStands(t, place.value, lo, hi);
    OffsetIsItem(t, place.value);
  }
}
