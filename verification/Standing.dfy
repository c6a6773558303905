/**
 * Places that seek and find leave: what is read from there on, and where the
 * values of a key begin in the contents.
 */
module Standing {
  import opened Types
  import opened Multimap
  import opened Tree
  import opened Meaning
  import opened Lookup
  import opened Contents
  import opened Counting
  import opened Seeking
  import opened Ranking
  import opened Cursors
  import Leaves
  import Overflow

  // ---------------------------------------------------------------- what is read from a place on

  /** The position among the items of the leaf. */
  function SpotIndex(l: Leaves.Valid, s: Spot): nat {
    match s
    case OnPair(i) => i
    case OnValue(d, i) => |l.pairs| + ChainOffset(l.chain, d, i)
  }

  lemma SpotInLeaf(l: Leaves.Valid, s: Spot)
    requires LeafItem(l, s).Some?
    ensures SpotIndex(l, s) < |Leaves.Items(l)|
  {
    if s.OnValue? {
      ChainOffsetIs(l.chain, s.depth, s.i);
    }
  }

  /** From a settled place that is in memory the iteration reads the contents from its offset on. */
  lemma {:induction false} StandItems(n: Node, p: Place)
    requires AtLeaf(n, p.path) && Stands(n, p)
    ensures LeafItem(LeafAt(n, p.path), p.spot).Some?
    ensures var k := SpotIndex(LeafAt(n, p.path), p.spot);
            && k < |Leaves.Items(LeafAt(n, p.path))|
            && 0 <= Offset(n, p) < |Content(n)|
            && ItemsAt(n, p.path, k) == Content(n)[Offset(n, p)..]
    decreases n
  {
    hide ContentFrom, Range, Leaves.Items, ApplyMany;
    OffsetIsItem(n, p);
    match n
    case Leaf(l) => SpotInLeaf(l, p.spot);
    case Internal(bs, q) =>
      var i, below := p.path[0], Place(p.path[1..], p.spot);
      StandItems(bs[i].child, below);
      assert Settled(bs, q, i) == bs[i].child by { NothingWaits(bs, q, i); }
      ContentFromSuffix(n, i);
      ContentFromStep(bs, q, i);
      TailOf(Content(n), ItemsLeft(n, i), Content(bs[i].child), ContentFrom(bs, q, i + 1), Offset(bs[i].child, below));
  }

  lemma NothingWaits(bs: seq<Branch>, q: seq<Edit>, i: nat)
    requires i < |bs| && Range(bs, q, i) == []
    ensures Settled(bs, q, i) == bs[i].child
  {
  }

  lemma TailOf(all: seq<Pair>, left: int, here: seq<Pair>, behind: seq<Pair>, o: int)
    requires 0 <= left <= |all| && all[left..] == here + behind && 0 <= o < |here|
    ensures here[o..] + behind == all[left + o..]
  {
    assert all[left + o..] == all[left..][o..];
  }

  // ---------------------------------------------------------------- the place seek finds

  lemma {:induction false} ChainFound(c: Overflow.Chain, m: nat, depth: nat)
    ensures SeekChain(c, m, depth).Some? ==> m < |Overflow.Flat(c)|
  {
    if c.Node? && m >= |c.values| {
      ChainFound(c.next, m - |c.values|, depth + 1);
    }
  }

  lemma SeekLeafStands(l: Leaves.Valid, m: nat)
    requires SeekLeaf(l, m).Some?
    ensures var s := SeekLeaf(l, m).value; LeafItem(TouchLeaf(l, s), s).Some? && SpotIndex(TouchLeaf(l, s), s) == m
  {
    if m >= |l.pairs| {
      ChainFound(l.chain, m - |l.pairs|, 0);
      SeekLeafLands(l, m, None, None);
    }
  }

  /** Whatever the counts are: where seek stops it stands on an item, in memory, with nothing queued for its path. */
  lemma {:induction false} SeekStands(n: Node, m: int, lo: Option<Key>, hi: Option<Key>)
    requires Ordered(n, lo, hi) && Parsed(n)
    ensures var (t, place) := Seek(n, m, lo, hi);
            place.Some? ==> Stands(t, place.value) && AtLeaf(t, place.value.path)
    decreases Height(n), 1, 0
  {
    match n
    case Leaf(l) =>
      if m >= 0 && SeekLeaf(l, m).Some? {
        SeekLeafStands(l, m);
      }
    case Internal(_, _) => SeekFromStands(n, 0, m, lo, hi);
  }

  lemma {:induction false} SeekFromStands(n: Node, i: nat, m: int, lo: Option<Key>, hi: Option<Key>)
    requires n.Internal? && Ordered(n, lo, hi) && Parsed(n)
    ensures var (t, place) := SeekFrom(n, i, m, lo, hi);
            place.Some? ==> Stands(t, place.value) && AtLeaf(t, place.value.path)
    decreases Height(n), 0, if i <= |n.branches| then |n.branches| - i else 0
  {
    hide Ordered, Parsed, RankDelta, Push, PutChild, Stands, AtLeaf, Seek;
    if i < |n.branches| {
      var (t, delta) := RankDelta(n, i, lo, hi);
      DeltaOrdered(n, i, lo, hi);
      var available := t.branches[i].count + delta;
      if m < available {
        PushedChild(t, i, lo, hi, false);
        var p := Push(t, i, lo, hi, false);
        var c := p.branches[i].child;
        var flo, fhi := ForkLo(t.branches, i, lo), ForkHi(t.branches, i, hi);
        SeekStands(c, m, flo, fhi);
        SeeksDown(n, i, m, t, delta, lo, hi);
        PushedRange(t, i, lo, hi);
        PushMarks(t, i, lo, hi);
        var r := Seek(c, m, flo, fhi);
        if r.1.Some? {
          PutStands(p, i, r.0, r.1.value);
        }
      } else {
        SeekFromStands(t, i + 1, m - available, lo, hi);
        SkipsOn(n, i, m, t, delta, lo, hi);
      }
    }
  }

  lemma PushMarks(n: Node, i: nat, lo: Option<Key>, hi: Option<Key>)
    requires n.Internal? && i < |n.branches|
    ensures Push(n, i, lo, hi, false).branches[i].loaded
  {
    hide ApplyMany;
  }

  lemma PutStands(p: Node, i: nat, d: Node, place: Place)
    requires p.Internal? && i < |p.branches| && p.branches[i].loaded && Range(p.branches, p.queue, i) == []
    requires Stands(d, place) && AtLeaf(d, place.path)
    ensures var t, q := PutChild(p, i, d), Place([i] + place.path, place.spot); Stands(t, q) && AtLeaf(t, q.path)
  {
    hide Range;
    var t, q := PutChild(p, i, d), Place([i] + place.path, place.spot);
    RangeSame(p.branches, t.branches, p.queue, i);
    assert q.path[1..] == place.path;
  }

  // ---------------------------------------------------------------- the place find finds

  /** Where find finds the key it stands on an item, in memory, with nothing queued for its path. */
  lemma {:induction false} FindStands(n: Node, k: Key, lo: Option<Key>, hi: Option<Key>)
    requires Ordered(n, lo, hi) && Parsed(n) && Within(lo, hi, k)
    requires ValueAt(Find(n, Some(k), lo, hi), k).Some?
    ensures var t := Find(n, Some(k), lo, hi); Stands(t, PlaceOf(t, k)) && AtLeaf(t, PlaceOf(t, k).path)
    decreases Height(n)
  {
    hide Ordered, Parsed, Push, Range, Stands, AtLeaf, ValueAt;
    match n
    case Leaf(l) => LeafFinds(l, k);
    case Internal(bs, _) =>
      OrderedParts(n, lo, hi);
      var i := Route(bs, k);
      var p, flo, fhi := Push(n, i, lo, hi, false), ForkLo(bs, i, lo), ForkHi(bs, i, hi);
      PushEmpties(n, k, lo, hi);
      PushedRange(n, i, lo, hi);
      PushMarks(n, i, lo, hi);
      var c := p.branches[i].child;
      var d := Find(c, Some(k), flo, fhi);
      FoundBelow(p, i, d, k);
      FindStands(c, k, flo, fhi);
      PutStands(p, i, d, PlaceOf(d, k));
  }

  lemma LeafFinds(l: Leaves.Valid, k: Key)
    requires ValueAt(Leaf(l), k).Some?
    ensures Stands(Leaf(l), PlaceOf(Leaf(l), k)) && AtLeaf(Leaf(l), PlaceOf(Leaf(l), k).path)
  {
  }

  // -- the first item of the key

  lemma NothingLeft(n: Node)
    requires n.Internal?
    ensures ItemsLeft(n, 0) == 0
  {
    ContentStart(n);
  }

  lemma {:induction false} LeftKeys(n: Node, i: nat, lo: Option<Key>, hi: Option<Key>, k: Key)
    requires n.Internal? && Ordered(n, lo, hi) && i < |n.branches| && AtLeast(Lo(n.branches, i, lo), k)
    ensures 0 <= ItemsLeft(n, i) <= |Content(n)|
    ensures forall j :: 0 <= j < ItemsLeft(n, i) ==> Content(n)[j].key < k
    decreases i
  {
    hide Ordered, Content, ContentFrom, Range, Separators, Settled;
    ContentFromSuffix(n, i);
    if i == 0 {
      NothingLeft(n);
    } else {
      OrderedParts(n, lo, hi);
      SeparatorBelow(n.branches, i, lo, hi, k);
      LeftKeys(n, i - 1, lo, hi, k);
      SettledOrdered(n, i - 1, lo, hi);
      var here := Content(Settled(n.branches, n.queue, i - 1));
      ContentSorted(Settled(n.branches, n.queue, i - 1), Lo(n.branches, i - 1, lo), Hi(n.branches, i - 1, hi));
      ContentFromSuffix(n, i - 1);
      ContentFromStep(n.branches, n.queue, i - 1);
      BelowAll(Content(n), ItemsLeft(n, i - 1), here, ContentFrom(n.branches, n.queue, i), k);
    }
  }

  lemma BelowAll(all: seq<Pair>, left: int, here: seq<Pair>, behind: seq<Pair>, k: Key)
    requires 0 <= left <= |all| && all[left..] == here + behind
    requires forall j :: 0 <= j < left ==> all[j].key < k
    requires forall j :: 0 <= j < |here| ==> here[j].key < k
    ensures forall j :: 0 <= j < left + |here| ==> all[j].key < k
  {
    forall j | left <= j < left + |here|
      ensures all[j].key < k
    {
      assert all[j] == all[left..][j - left] == here[j - left];
    }
  }

  lemma SeparatorBelow(bs: seq<Branch>, i: nat, lo: Option<Key>, hi: Option<Key>, k: Key)
    requires Separators(bs, lo, hi) && 0 < i < |bs| && AtLeast(Lo(bs, i, lo), k)
    ensures AtLeast(Lo(bs, i - 1, lo), k) && Hi(bs, i - 1, hi).Some? && Hi(bs, i - 1, hi).value <= k
  {
  }

  lemma {:induction false} BeforeKey(n: Node, k: Key, lo: Option<Key>, hi: Option<Key>)
    requires Ordered(n, lo, hi) && Within(lo, hi, k) && Stands(n, PlaceOf(n, k))
    ensures 0 <= Offset(n, PlaceOf(n, k)) < |Content(n)|
    ensures forall j :: 0 <= j < Offset(n, PlaceOf(n, k)) ==> Content(n)[j].key < k
    decreases n
  {
    hide ContentFrom, Range, ApplyMany;
    OffsetIsItem(n, PlaceOf(n, k));
    match n
    case Leaf(l) =>
    case Internal(bs, q) =>
      hide Content, ItemsLeft, LeafItem, LowerBound, Lo, Hi, Below, AtLeast;
      var i := Route(bs, k);
      var c := bs[i].child;
      RouteInRange(bs, lo, hi, k);
      assert PlaceOf(n, k).path[1..] == PlaceOf(c, k).path;
      BeforeKey(c, k, Lo(bs, i, lo), Hi(bs, i, hi));
      LeftKeys(n, i, lo, hi, k);
      ContentFromSuffix(n, i);
      ContentFromStep(bs, q, i);
      NothingWaits(bs, q, i);
      UpTo(Content(n), ItemsLeft(n, i), Content(c), ContentFrom(bs, q, i + 1), Offset(c, PlaceOf(c, k)), k);
  }

  lemma UpTo(all: seq<Pair>, left: int, here: seq<Pair>, behind: seq<Pair>, o: int, k: Key)
    requires 0 <= left <= |all| && all[left..] == here + behind && 0 <= o <= |here|
    requires forall j :: 0 <= j < left ==> all[j].key < k
    requires forall j :: 0 <= j < o ==> here[j].key < k
    ensures forall j :: 0 <= j < left + o ==> all[j].key < k
  {
    BelowAll(all, left, here[..o], here[o..] + behind, k);
  }

  lemma {:induction false} LowerBoundIs(ps: seq<Pair>, k: Key, o: nat)
    requires o < |ps| && ps[o].key >= k && forall j :: 0 <= j < o ==> ps[j].key < k
    ensures LowerBound(ps, k) == o
  {
    if o > 0 {
      LowerBoundIs(ps[1..], k, o - 1);
    }
  }

  /**
   * get answers with the value of the first item of the key in the contents, and
   * with nothing if there is none; find leaves the iterator on that item.
   */
  lemma GetFirst(n: Node, k: Key)
    requires Ordered(n, None, None) && Parsed(n)
    ensures var (t, r) := Get(n, k); var o := LowerBound(Content(n), k);
            && Content(t) == Content(n)
            && (r.Some? ==> && o < |Content(n)| && Content(n)[o] == Pair(k, r.value)
                            && Stands(t, PlaceOf(t, k)) && Offset(t, PlaceOf(t, k)) == o)
            && (r.None? ==> forall j :: 0 <= j < |Content(n)| ==> Content(n)[j].key != k)
  {
    hide Ordered, Parsed, Find, Content, ValueAt, Stands, PlaceOf, Offset;
    var (t, r) := Get(n, k);
    assert Within(None, None, k);
    FindOrdered(n, Some(k), None, None);
    FindContent(n, Some(k), None, None);
    if r.Some? {
      FindStands(n, k, None, None);
      PlaceHolds(t, k);
      OffsetIsItem(t, PlaceOf(t, k));
      BeforeKey(t, k, None, None);
      LowerBoundIs(Content(t), k, Offset(t, PlaceOf(t, k)));
    } else {
      NoneHeld(n, k);
    }
  }

  /** An honest tree ranks a found key by the position of its first item in the contents. */
  lemma RankOfFind(n: Node, k: Key)
    requires Ordered(n, None, None) && Parsed(n) && Counted(n) && Honest(n, None, None)
    requires Get(n, k).1.Some?
    ensures var t := Get(n, k).0;
            Content(t) == Content(n) && Rank(t, PlaceOf(t, k), None, None) == LowerBound(Content(n), k) < |Content(n)|
  {
    hide Ordered, Parsed, Counted, Honest, Find, Content, ValueAt, Stands, PlaceOf, Offset, Rank, OnPath, ItemAt;
    var t := Get(n, k).0;
    assert Within(None, None, k);
    FindPlaces(n, k, None, None);
    FindOrdered(n, Some(k), None, None);
    PlaceHolds(t, k);
    RankIsOffset(t, PlaceOf(t, k), None, None);
    GetFirst(n, k);
  }

  lemma NoneHeld(n: Node, k: Key)
    requires Ordered(n, None, None) && Parsed(n) && Get(n, k).1.None?
    ensures forall j :: 0 <= j < |Content(Get(n, k).0)| ==> Content(Get(n, k).0)[j].key != k
  {
    hide Ordered, Parsed, Find, Content, Bag;
    var t := Get(n, k).0;
    assert Within(None, None, k);
    FindOrdered(n, Some(k), None, None);
    ContentDenoted(t, None, None, k);
    GetFits(n, k, Bag(Content(t), k));
    BagEmpty(Content(t), k);
  }

  // ---------------------------------------------------------------- what iteration asks of the tree

  /** Finding leaves a tree that can be iterated over. */
  lemma {:induction false} FindKeeps(n: Node, key: Option<Key>, lo: Option<Key>, hi: Option<Key>)
    requires Iterable(n, lo, hi)
    ensures Iterable(Find(n, key, lo, hi), lo, hi) && Content(Find(n, key, lo, hi)) == Content(n)
    decreases Height(n)
  {
    hide Full, Ordered, Parsed, Content, Push, Range, Route;
    if n.Internal? && |n.branches| > 0 {
      var i := if key.Some? then Route(n.branches, key.value) else 0;
      var p := Push(n, i, lo, hi, false);
      PushedChild(n, i, lo, hi, false);
      PushKeeps(n, i, lo, hi);
      var flo, fhi := ForkLo(n.branches, i, lo), ForkHi(n.branches, i, hi);
      var c := p.branches[i].child;
      FindKeeps(c, key, flo, fhi);
      PutKeeps(p, i, Find(c, key, flo, fhi), lo, hi);
    }
  }

  /** Looking at a branch settles no child differently, unless edits go deep into an internal one. */
  lemma DeltaSettles(n: Node, i: nat, lo: Option<Key>, hi: Option<Key>, j: nat)
    requires n.Internal? && Ordered(n, lo, hi) && Parsed(n) && i < |n.branches| && j < |n.branches|
    requires AllGuaranteed(Range(n.branches, n.queue, i)) || n.branches[i].child.Leaf?
    ensures var t := RankDelta(n, i, lo, hi).0; Settled(t.branches, t.queue, j) == Settled(n.branches, n.queue, j)
  {
    hide Ordered, Parsed, Push, AllGuaranteed;
    var u := Touch(n, i);
    PendingIsRange(n, i, lo, hi);
    assert SameBranches(n.branches, u.branches);
    SameOrdered(n, u, lo, hi);
    SameSettled(n, u, j);
    if !AllGuaranteed(PendingFor(n, i, lo, hi)) {
      DeepIsShallow(u, i, lo, hi);
      PushSettled(u, i, lo, hi, j);
    }
  }

  lemma DeltaKeeps(n: Node, i: nat, lo: Option<Key>, hi: Option<Key>)
    requires n.Internal? && Iterable(n, lo, hi) && i < |n.branches|
    requires AllGuaranteed(Range(n.branches, n.queue, i)) || n.branches[i].child.Leaf?
    ensures var t := RankDelta(n, i, lo, hi).0; Iterable(t, lo, hi) && Content(t) == Content(n)
  {
    hide Ordered, Parsed, RankDelta, Full, Content, ContentFrom, AllGuaranteed;
    var t := RankDelta(n, i, lo, hi).0;
    DeltaOrdered(n, i, lo, hi);
    forall j | 0 <= j < |n.branches|
      ensures Settled(t.branches, t.queue, j) == Settled(n.branches, n.queue, j)
    {
      DeltaSettles(n, i, lo, hi, j);
    }
    FullSame(n.branches, n.queue, t.branches, t.queue);
    ContentFromSame(n.branches, n.queue, t.branches, t.queue, 0);
    ContentStart(n);
    ContentStart(t);
  }

  lemma CountableBatch(n: Node, i: nat, lo: Option<Key>, hi: Option<Key>)
    requires n.Internal? && i < |n.branches| && Countable(n, i, lo, hi)
    ensures AllGuaranteed(Range(n.branches, n.queue, i)) || n.branches[i].child.Leaf?
  {
  }

  lemma TouchedSpot(l: Leaves.Valid, s: Spot, lo: Option<Key>, hi: Option<Key>)
    requires Iterable(Leaf(l), lo, hi)
    ensures Iterable(Leaf(TouchLeaf(l, s)), lo, hi) && Content(Leaf(TouchLeaf(l, s))) == Content(Leaf(l))
  {
  }

  /** Where the counts can be trusted, seeking leaves a tree that can be iterated over, and reads the same. */
  lemma {:induction false} SeekKeeps(n: Node, m: int, lo: Option<Key>, hi: Option<Key>)
    requires Iterable(n, lo, hi) && Seekable(n, lo, hi)
    ensures Iterable(Seek(n, m, lo, hi).0, lo, hi) && Content(Seek(n, m, lo, hi).0) == Content(n)
    decreases Height(n), 1, 0
  {
    hide Ordered, Parsed, Countable, Overflow.Valid, Iterable, SeekFrom, SeekLeaf, TouchLeaf, Content;
    match n
    case Leaf(l) =>
      if m >= 0 && SeekLeaf(l, m).Some? {
        TouchedSpot(l, SeekLeaf(l, m).value, lo, hi);
      }
    case Internal(bs, q) => SeekFromKeeps(n, 0, m, lo, hi);
  }

  lemma {:induction false} SeekFromKeeps(n: Node, i: nat, m: int, lo: Option<Key>, hi: Option<Key>)
    requires n.Internal? && Iterable(n, lo, hi) && i <= |n.branches| && Passed(n, i, lo, hi)
    ensures Iterable(SeekFrom(n, i, m, lo, hi).0, lo, hi) && Content(SeekFrom(n, i, m, lo, hi).0) == Content(n)
    decreases Height(n), 0, |n.branches| - i
  {
    hide Ordered, Parsed, Full, Passed, Turned, RankDelta, Push, PutChild, Content, Seek;
    if i < |n.branches| {
      var (t, delta) := RankDelta(n, i, lo, hi);
      PassedIs(n, i, lo, hi);
      CountableBatch(n, i, lo, hi);
      DeltaKeeps(n, i, lo, hi);
      ScanTurn(n, i, lo, hi);
      TurnedPasses(n, i, t, delta, lo, hi);
      if m < t.branches[i].count + delta {
        SeeksDown(n, i, m, t, delta, lo, hi);
        DescentChild(n, i, t, delta, lo, hi);
        PushKeeps(t, i, lo, hi);
        var p := Push(t, i, lo, hi, false);
        var c := p.branches[i].child;
        var flo, fhi := ForkLo(t.branches, i, lo), ForkHi(t.branches, i, hi);
        SeekKeeps(c, m, flo, fhi);
        PutKeeps(p, i, Seek(c, m, flo, fhi).0, lo, hi);
      } else {
        SkipsOn(n, i, m, t, delta, lo, hi);
        SeekFromKeeps(t, i + 1, m - (t.branches[i].count + delta), lo, hi);
      }
    }
  }

  lemma PassedIs(n: Node, i: nat, lo: Option<Key>, hi: Option<Key>)
    requires n.Internal? && i < |n.branches| && Passed(n, i, lo, hi)
    ensures Countable(n, i, lo, hi)
  {
  }
}
