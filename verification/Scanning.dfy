/**
 * What the scan of seek sees, whatever flags the queued edits carry: edits that
 * are not guaranteed are applied deep before a branch is counted.
 */
module Scanning {
  import opened Types
  import opened Multimap
  import opened Tree
  import opened Meaning
  import opened Lookup
  import opened Contents
  import opened Counting
  import opened Seeking
  import opened Ranking
  import opened Standing
  import opened Cursors
  import opened Trust
  import Leaves
  import Overflow

  // ---------------------------------------------------------------- a branch that was looked at

  /** Child i once pendingRankDelta has seen it, and the edits it leaves in the queue have been pushed after it. */
  function Looked(bs: seq<Branch>, q: seq<Edit>, i: nat): Node
    requires i < |bs|
  {
    var es := Range(bs, q, i);
    ApplyMany(bs[i].child, es, !AllGuaranteed(es))
  }

  /** What the scan compares with: the stored count and the reported delta. */
  function Term(bs: seq<Branch>, q: seq<Edit>, i: nat): int
    requires i < |bs|
  {
    var es := Range(bs, q, i);
    if AllGuaranteed(es) then bs[i].count + Deltas(es) else ItemCount(Looked(bs, q, i))
  }

  lemma LookedHeight(bs: seq<Branch>, q: seq<Edit>, i: nat)
    requires i < |bs|
    ensures Height(Looked(bs, q, i)) <= MaxHeight(bs)
  {
    MaxHeightBounds(bs, i);
    ManyHeight(bs[i].child, Range(bs, q, i), !AllGuaranteed(Range(bs, q, i)));
  }

  lemma LookedOrdered(n: Node, i: nat, lo: Option<Key>, hi: Option<Key>)
    requires n.Internal? && Ordered(n, lo, hi) && Parsed(n) && i < |n.branches|
    ensures var c := Looked(n.branches, n.queue, i);
            Ordered(c, Lo(n.branches, i, lo), Hi(n.branches, i, hi)) && Parsed(c) && Height(c) < Height(n)
  {
    hide AllGuaranteed;
    var es := Range(n.branches, n.queue, i);
    RangeWithin(n.branches, n.queue, lo, hi, i);
    ManyOrdered(n.branches[i].child, es, !AllGuaranteed(es), Lo(n.branches, i, lo), Hi(n.branches, i, hi));
    ManyParsed(n.branches[i].child, es, !AllGuaranteed(es));
    LookedHeight(n.branches, n.queue, i);
  }

  /** One turn of the scan, on any tree: branch i is looked at, and no other branch changes. */
  ghost predicate Turns(n: Node, i: nat, t: Node)
    requires n.Internal? && i < |n.branches|
  {
    && t.Internal? && |t.branches| == |n.branches| && Height(t) == Height(n)
    && Settled(t.branches, t.queue, i) == Looked(n.branches, n.queue, i)
    && forall j :: 0 <= j < |n.branches| && j != i ==>
         t.branches[j] == n.branches[j] && Range(t.branches, t.queue, j) == Range(n.branches, n.queue, j)
  }

  lemma Looks(n: Node, i: nat, lo: Option<Key>, hi: Option<Key>)
    requires n.Internal? && Ordered(n, lo, hi) && Parsed(n) && i < |n.branches|
    ensures var (t, delta) := RankDelta(n, i, lo, hi);
            && Turns(n, i, t) && t.branches[i].count + delta == Term(n.branches, n.queue, i)
            && Ordered(t, lo, hi) && Parsed(t)
  {
    hide Ordered, Parsed, ApplyMany, Settled, Looked, AllGuaranteed, Range, PendingFor, Deltas;
    var (t, delta) := RankDelta(n, i, lo, hi);
    DeltaOrdered(n, i, lo, hi);
    forall j | 0 <= j < |n.branches| && j != i
      ensures t.branches[j] == n.branches[j]
      ensures Range(t.branches, t.queue, j) == Range(n.branches, n.queue, j)
    {
      Elsewhere(n, i, lo, hi, j);
      OtherTerm(n, i, j, lo, hi);
    }
    LookHere(n, i, lo, hi);
  }

  lemma Elsewhere(n: Node, i: nat, lo: Option<Key>, hi: Option<Key>, j: nat)
    requires n.Internal? && i < |n.branches| && j < |n.branches| && j != i
    ensures RankDelta(n, i, lo, hi).0.branches[j] == n.branches[j]
  {
    hide ApplyMany, AllGuaranteed, Deltas;
  }

  lemma LookHere(n: Node, i: nat, lo: Option<Key>, hi: Option<Key>)
    requires n.Internal? && Ordered(n, lo, hi) && Parsed(n) && i < |n.branches|
    ensures var (t, delta) := RankDelta(n, i, lo, hi);
            && Settled(t.branches, t.queue, i) == Looked(n.branches, n.queue, i)
            && t.branches[i].count + delta == Term(n.branches, n.queue, i)
  {
    hide Ordered, Parsed, Apply, Range, PendingFor, AllGuaranteed, Deltas, Push;
    var u := Touch(n, i);
    PendingIsRange(n, i, lo, hi);
    assert SameBranches(n.branches, u.branches);
    SameOrdered(n, u, lo, hi);
    SameSettled(n, u, i);
    if !AllGuaranteed(Range(n.branches, n.queue, i)) {
      DeepHere(u, i, lo, hi);
      var p := Push(u, i, lo, hi, true);
      NothingWaits(p.branches, p.queue, i);
    }
  }

  lemma DeepHere(u: Node, i: nat, lo: Option<Key>, hi: Option<Key>)
    requires u.Internal? && Ordered(u, lo, hi) && Parsed(u) && i < |u.branches|
    ensures var p := Push(u, i, lo, hi, true); var c := ApplyMany(u.branches[i].child, Range(u.branches, u.queue, i),
            true);
            p.branches[i].child == c && p.branches[i].count == ItemCount(c) && Range(p.branches, p.queue, i) == []
  {
    hide ApplyMany, ItemCount;
    var p := Push(u, i, lo, hi, true);
    PendIsRange(u, i, lo, hi);
    RangeAfter(u.branches, u.queue, lo, hi, i, i);
    RangeSame(u.branches, p.branches, p.queue, i);
  }

  // ---------------------------------------------------------------- the condition on the counts

  /** Looking at the branch gives the number of items that are then in it, as many as were in it before. */
  ghost predicate CalmAt(bs: seq<Branch>, q: seq<Edit>, i: nat)
    requires i < |bs|
    decreases 1 + MaxHeight(bs), 0
  {
    LookedHeight(bs, q, i);
    var c := Looked(bs, q, i);
    Term(bs, q, i) == |Content(c)| == |Content(Settled(bs, q, i))| && Calm(c)
  }

  /** Every look that seek may take, at every level, counts right and changes no number of items. */
  ghost predicate Calm(n: Node)
    decreases Height(n), 1
  {
    n.Internal? ==> forall i :: 0 <= i < |n.branches| ==> CalmAt(n.branches, n.queue, i)
  }

  /** Looking at the branch gives the number of items that are then in it. */
  ghost predicate SureAt(bs: seq<Branch>, q: seq<Edit>, i: nat)
    requires i < |bs|
  {
    Term(bs, q, i) == |Content(Looked(bs, q, i))| && Calm(Looked(bs, q, i))
  }

  /** Every look at a branch of the root counts right; below, looking changes no number of items. */
  ghost predicate Sure(n: Node) {
    n.Internal? ==> forall i :: 0 <= i < |n.branches| ==> SureAt(n.branches, n.queue, i)
  }

  ghost predicate SureFrom(n: Node, i: nat)
    requires n.Internal?
  {
    forall j :: i <= j < |n.branches| ==> SureAt(n.branches, n.queue, j)
  }

  ghost predicate CalmFrom(n: Node, i: nat)
    requires n.Internal?
  {
    forall j :: i <= j < |n.branches| ==> CalmAt(n.branches, n.queue, j)
  }

  lemma SameLook(n: Node, t: Node, j: nat)
    requires n.Internal? && t.Internal? && |n.branches| == |t.branches| && j < |n.branches|
    requires t.branches[j] == n.branches[j] && Range(t.branches, t.queue, j) == Range(n.branches, n.queue, j)
    ensures Settled(t.branches, t.queue, j) == Settled(n.branches, n.queue, j)
    ensures SureAt(n.branches, n.queue, j) ==> SureAt(t.branches, t.queue, j)
    ensures CalmAt(n.branches, n.queue, j) ==> CalmAt(t.branches, t.queue, j)
  {
    hide Content, Calm, AllGuaranteed, Range;
  }

  lemma TurnKeeps(n: Node, i: nat, t: Node)
    requires n.Internal? && i < |n.branches| && Turns(n, i, t)
    ensures SureFrom(n, i) ==> SureFrom(t, i + 1)
    ensures CalmFrom(n, i) ==> CalmFrom(t, i + 1)
    ensures forall j :: 0 <= j < |n.branches| && j != i ==>
              Settled(t.branches, t.queue, j) == Settled(n.branches, n.queue, j)
  {
    hide SureAt, CalmAt, Settled, Range, Looked;
    forall j | 0 <= j < |n.branches| && j != i
      ensures Settled(t.branches, t.queue, j) == Settled(n.branches, n.queue, j)
      ensures SureAt(n.branches, n.queue, j) ==> SureAt(t.branches, t.queue, j)
      ensures CalmAt(n.branches, n.queue, j) ==> CalmAt(t.branches, t.queue, j)
    {
      SameLook(n, t, j);
    }
  }

  // ---------------------------------------------------------------- items left and right of a branch

  /** Equal branches on the left hold equally many items. */
  lemma {:induction false} LeftSame(n: Node, t: Node, i: nat)
    requires n.Internal? && t.Internal? && |n.branches| == |t.branches| && i <= |n.branches|
    requires forall j :: 0 <= j < i ==> Settled(t.branches, t.queue, j) == Settled(n.branches, n.queue, j)
    ensures ItemsLeft(t, i) == ItemsLeft(n, i)
  {
    hide Settled, Content, ContentFrom;
    if i == 0 {
      NothingLeft(n);
      NothingLeft(t);
    } else {
      LeftSame(n, t, i - 1);
      ContentFromStep(n.branches, n.queue, i - 1);
      ContentFromStep(t.branches, t.queue, i - 1);
    }
  }

  lemma {:induction false} RightSame(n: Node, t: Node, i: nat)
    requires n.Internal? && t.Internal? && |n.branches| == |t.branches| && i <= |n.branches|
    requires forall j :: i <= j < |n.branches| ==> Settled(t.branches, t.queue, j) == Settled(n.branches, n.queue, j)
    ensures ContentFrom(t.branches, t.queue, i) == ContentFrom(n.branches, n.queue, i)
    decreases |n.branches| - i
  {
    hide Settled, Content;
    if i < |n.branches| {
      RightSame(n, t, i + 1);
    }
  }

  // ---------------------------------------------------------------- seek reads

  /** The branches left of i are settled alike. */
  ghost predicate LeftKept(n: Node, t: Node, i: nat)
    requires n.Internal? && t.Internal? && |n.branches| == |t.branches| && i <= |n.branches|
  {
    forall j :: 0 <= j < i ==> Settled(t.branches, t.queue, j) == Settled(n.branches, n.queue, j)
  }

  /** What seek(m) from branch i on gives: the item m places on, or no place because there are not so many. */
  ghost predicate Reads(n: Node, i: nat, m: int, r: (Node, Option<Place>))
    requires n.Internal? && i <= |n.branches|
  {
    && r.0.Internal? && |r.0.branches| == |n.branches|
    && LeftKept(n, r.0, i)
    && (r.1.Some? <==> m < |ContentFrom(r.0.branches, r.0.queue, i)|)
    && (r.1.Some? ==> Offset(r.0, r.1.value) == ItemsLeft(n, i) + m)
  }

  lemma ScanEnds(n: Node, m: nat, lo: Option<Key>, hi: Option<Key>)
    requires n.Internal?
    ensures var r := SeekFrom(n, |n.branches|, m, lo, hi); Reads(n, |n.branches|, m, r) && r.0 == n
  {
  }

  lemma SureHere(n: Node, i: nat)
    requires n.Internal? && i < |n.branches| && SureFrom(n, i)
    ensures Term(n.branches, n.queue, i) == |Content(Looked(n.branches, n.queue, i))|
    ensures Calm(Looked(n.branches, n.queue, i))
    ensures CalmFrom(n, i) ==>
              |Content(Looked(n.branches, n.queue, i))| == |Content(Settled(n.branches, n.queue, i))|
  {
    hide Content, Calm, Term, Looked, Settled;
    assert SureAt(n.branches, n.queue, i);
    assert CalmFrom(n, i) ==> CalmAt(n.branches, n.queue, i);
  }

  /** The tree after a search below branch i: only that branch is another one. */
  lemma PutSettled(t: Node, i: nat, d: Node, lo: Option<Key>, hi: Option<Key>)
    requires t.Internal? && Ordered(t, lo, hi) && Parsed(t) && i < |t.branches|
    ensures var p := Push(t, i, lo, hi, false); var r := PutChild(p, i, d);
            && p.branches[i].child == Settled(t.branches, t.queue, i)
            && r.Internal? && |r.branches| == |t.branches| && Settled(r.branches, r.queue, i) == d
            && forall j :: 0 <= j < |t.branches| && j != i ==>
                 Settled(r.branches, r.queue, j) == Settled(t.branches, t.queue, j)
  {
    hide Ordered, Parsed, Push, ApplyMany, Range;
    var p := Push(t, i, lo, hi, false);
    var r := PutChild(p, i, d);
    PushedRange(t, i, lo, hi);
    RangeSame(p.branches, r.branches, p.queue, i);
    NothingWaits(r.branches, r.queue, i);
    forall j | 0 <= j < |t.branches| && j != i
      ensures Settled(r.branches, r.queue, j) == Settled(t.branches, t.queue, j)
    {
      PushSettled(t, i, lo, hi, j);
      RangeSame(p.branches, r.branches, p.queue, j);
    }
  }

  /** Content from branch i on, when that branch holds d and the others are kept. */
  lemma FromHere(n: Node, r: Node, i: nat, d: Node)
    requires n.Internal? && r.Internal? && |n.branches| == |r.branches| && i < |n.branches|
    requires Settled(r.branches, r.queue, i) == d
    requires forall j :: i < j < |n.branches| ==> Settled(r.branches, r.queue, j) == Settled(n.branches, n.queue, j)
    ensures |ContentFrom(r.branches, r.queue, i)| == |Content(d)| + |ContentFrom(n.branches, n.queue, i + 1)|
    ensures |ContentFrom(n.branches, n.queue, i)|
         == |Content(Settled(n.branches, n.queue, i))| + |ContentFrom(n.branches, n.queue, i + 1)|
  {
    hide Settled, Content, ContentFrom;
    RightSame(n, r, i + 1);
    ContentFromStep(r.branches, r.queue, i);
    ContentFromStep(n.branches, n.queue, i);
  }

  lemma ReadsBelow(n: Node, i: nat, m: nat, t: Node, delta: int, lo: Option<Key>, hi: Option<Key>)
    requires n.Internal? && Ordered(n, lo, hi) && Parsed(n) && i < |n.branches| && SureFrom(n, i)
    requires (t, delta) == RankDelta(n, i, lo, hi) && m < t.branches[i].count + delta
    requires var (d, place) := Seek(Looked(n.branches, n.queue, i), m, Lo(n.branches, i, lo), Hi(n.branches, i, hi));
             var here := |Content(Looked(n.branches, n.queue, i))|;
             |Content(d)| == here && (place.Some? <==> m < here) && (place.Some? ==> Offset(d, place.value) == m)
    ensures var r := SeekFrom(n, i, m, lo, hi);
            && Reads(n, i, m, r)
            && (CalmFrom(n, i) ==> |ContentFrom(r.0.branches, r.0.queue, i)| == |ContentFrom(n.branches, n.queue, i)|)
  {
    hide Ordered, Parsed, RankDelta, Push, PutChild, Content, ContentFrom, Seek, SeekFrom, Offset,
      SureFrom, CalmFrom, Term, Looked, Settled, ItemsLeft;
    Looks(n, i, lo, hi);
    SureHere(n, i);
    TurnKeeps(n, i, t);
    SeeksDown(n, i, m, t, delta, lo, hi);
    ForksSame(n, i, lo, hi);
    var (d, place) := Seek(Looked(n.branches, n.queue, i), m, Lo(n.branches, i, lo), Hi(n.branches, i, hi));
    PutSettled(t, i, d, lo, hi);
    var p := Push(t, i, lo, hi, false);
    var r := PutChild(p, i, d);
    assert SeekFrom(n, i, m, lo, hi) == (r, Under(i, place));
    FromHere(n, r, i, d);
    LeftSame(n, r, i);
    UnderOffset(p, i, d, place);
  }

  lemma UnderOffset(p: Node, i: nat, d: Node, place: Option<Place>)
    requires p.Internal? && i < |p.branches|
    ensures var r := PutChild(p, i, d);
            place.Some? ==> Offset(r, Under(i, place).value) == ItemsLeft(r, i) + Offset(d, place.value)
  {
    hide ItemsLeft;
    if place.Some? {
      assert ([i] + place.value.path)[1..] == place.value.path;
    }
  }

  lemma ReadsOn(n: Node, i: nat, m: nat, t: Node, lo: Option<Key>, hi: Option<Key>)
    requires n.Internal? && i < |n.branches| && Turns(n, i, t) && SureFrom(n, i)
    requires Term(n.branches, n.queue, i) <= m
    requires var r := SeekFrom(t, i + 1, m - Term(n.branches, n.queue, i), lo, hi);
             && Reads(t, i + 1, m - Term(n.branches, n.queue, i), r)
             && (CalmFrom(t, i + 1) ==>
                   |ContentFrom(r.0.branches, r.0.queue, i + 1)| == |ContentFrom(t.branches, t.queue, i + 1)|)
    ensures var r := SeekFrom(t, i + 1, m - Term(n.branches, n.queue, i), lo, hi);
            && Reads(n, i, m, r)
            && (CalmFrom(n, i) ==> |ContentFrom(r.0.branches, r.0.queue, i)| == |ContentFrom(n.branches, n.queue, i)|)
  {
    hide Content, ContentFrom, SeekFrom, Offset, SureFrom, CalmFrom, Term, Looked, Settled, ItemsLeft;
    SureHere(n, i);
    TurnKeeps(n, i, t);
    var r := SeekFrom(t, i + 1, m - Term(n.branches, n.queue, i), lo, hi);
    var u := r.0;
    ContentFromStep(u.branches, u.queue, i);
    assert Settled(u.branches, u.queue, i) == Settled(t.branches, t.queue, i);
    LeftSame(n, t, i);
    LeftStep(t, i);
    FromHere(n, t, i, Looked(n.branches, n.queue, i));
    ContentFromStep(t.branches, t.queue, i);
  }

  lemma LeftStep(n: Node, i: nat)
    requires n.Internal? && i < |n.branches|
    ensures ItemsLeft(n, i + 1) == ItemsLeft(n, i) + |Content(Settled(n.branches, n.queue, i))|
  {
    hide Settled, Content, ContentFrom;
    ContentFromStep(n.branches, n.queue, i);
  }

  lemma LeafReads(n: Node, m: nat, lo: Option<Key>, hi: Option<Key>)
    requires n.Leaf?
    ensures var (t, place) := Seek(n, m, lo, hi);
            && Content(t) == Content(n) && (place.Some? <==> m < |Content(n)|)
            && (place.Some? ==> Offset(t, place.value) == m)
  {
    var l := n.leaf;
    if m < |Leaves.Items(l)| {
      SeekLeafLands(l, m, lo, hi);
    } else if m >= |l.pairs| {
      ChainFound(l.chain, m - |l.pairs|, 0);
    }
  }

  lemma {:induction false} CalmReads(n: Node, m: nat, lo: Option<Key>, hi: Option<Key>)
    requires Ordered(n, lo, hi) && Parsed(n) && Calm(n)
    ensures var (t, place) := Seek(n, m, lo, hi);
            && |Content(t)| == |Content(n)| && (place.Some? <==> m < |Content(n)|)
            && (place.Some? ==> Offset(t, place.value) == m)
    decreases Height(n), 1, 0
  {
    hide Ordered, Parsed, CalmAt, SureAt, SeekFrom, Offset, Content, ContentFrom, CalmFrom, SureFrom;
    match n
    case Leaf(l) => LeafReads(n, m, lo, hi);
    case Internal(bs, q) =>
      CalmSure(n);
      ScanReads(n, 0, m, lo, hi);
      NothingLeft(n);
      ContentStart(n);
      ContentStart(SeekFrom(n, 0, m, lo, hi).0);
  }

  lemma CalmSure(n: Node)
    requires n.Internal? && Calm(n)
    ensures SureFrom(n, 0) && CalmFrom(n, 0)
  {
    hide Content, Term, Looked;
    forall j | 0 <= j < |n.branches|
      ensures SureAt(n.branches, n.queue, j)
    {
      assert CalmAt(n.branches, n.queue, j);
    }
  }

  lemma {:induction false} ScanReads(n: Node, i: nat, m: nat, lo: Option<Key>, hi: Option<Key>)
    requires n.Internal? && Ordered(n, lo, hi) && Parsed(n) && i <= |n.branches| && SureFrom(n, i)
    ensures var r := SeekFrom(n, i, m, lo, hi);
            && Reads(n, i, m, r)
            && (CalmFrom(n, i) ==> |ContentFrom(r.0.branches, r.0.queue, i)| == |ContentFrom(n.branches, n.queue, i)|)
    decreases Height(n), 0, |n.branches| - i
  {
    hide Ordered, Parsed, SureAt, CalmAt, RankDelta, Push, PutChild, Content, ContentFrom, Seek, SeekFrom, Offset,
      Reads, SureFrom, CalmFrom, Turns, Term, Looked;
    if i == |n.branches| {
      ScanEnds(n, m, lo, hi);
    } else {
      var (t, delta) := RankDelta(n, i, lo, hi);
      Looks(n, i, lo, hi);
      SureHere(n, i);
      if m < t.branches[i].count + delta {
        LookedOrdered(n, i, lo, hi);
        CalmReads(Looked(n.branches, n.queue, i), m, Lo(n.branches, i, lo), Hi(n.branches, i, hi));
        ReadsBelow(n, i, m, t, delta, lo, hi);
      } else {
        TurnKeeps(n, i, t);
        TurnsSize(n, i, t);
        ScanReads(t, i + 1, m - Term(n.branches, n.queue, i), lo, hi);
        SkipsOn(n, i, m, t, delta, lo, hi);
        ReadsOn(n, i, m, t, lo, hi);
      }
    }
  }

  lemma TurnsSize(n: Node, i: nat, t: Node)
    requires n.Internal? && i < |n.branches| && Turns(n, i, t)
    ensures t.Internal? && |t.branches| == |n.branches| && Height(t) == Height(n)
  {
  }

  /**
   * seek(m), whatever flags the edits carry: if every look counts right, the
   * place found reads item m of the contents, and there is none if and only if
   * there are not so many items.
   */
  lemma SeekReads(n: Node, m: nat, lo: Option<Key>, hi: Option<Key>)
    requires Ordered(n, lo, hi) && Parsed(n) && Sure(n)
    ensures var (t, place) := Seek(n, m, lo, hi);
            && (place.Some? <==> m < |Content(t)|)
            && (place.Some? ==> Stands(t, place.value) && AtLeaf(t, place.value.path) && Offset(t, place.value) == m
                                && ItemAt(t, place.value) == Some(Content(t)[m]))
  {
    hide Ordered, Parsed, SureAt, SeekFrom, Offset, Content, ContentFrom, SureFrom, Stands, AtLeaf, ItemsLeft;
    SeekStands(n, m, lo, hi);
    match n {
      case Leaf(l) => LeafReads(n, m, lo, hi);
      case Internal(bs, q) =>
        SureAll(n);
        ScanReads(n, 0, m, lo, hi);
        NothingLeft(n);
        ContentStart(SeekFrom(n, 0, m, lo, hi).0);
    }
    var (t, place) := Seek(n, m, lo, hi);
    if place.Some? {
      OffsetIsItem(t, place.value);
    }
  }

  lemma SureAll(n: Node)
    requires n.Internal? && Sure(n)
    ensures SureFrom(n, 0)
  {
    hide SureAt;
  }

  // ---------------------------------------------------------------- trees for which every look counts right

  lemma GuaranteedLook(bs: seq<Branch>, q: seq<Edit>, i: nat)
    requires i < |bs| && AllGuaranteed(Range(bs, q, i))
    ensures Looked(bs, q, i) == Settled(bs, q, i)
    ensures Term(bs, q, i) == bs[i].count + GuaranteedDeltas(Range(bs, q, i))
  {
    GuaranteedAll(Range(bs, q, i));
  }

  lemma LeafLook(bs: seq<Branch>, q: seq<Edit>, i: nat)
    requires i < |bs| && bs[i].child.Leaf?
    ensures Looked(bs, q, i) == Settled(bs, q, i) && Looked(bs, q, i).Leaf?
    ensures ItemCount(Looked(bs, q, i)) == |Content(Looked(bs, q, i))|
  {
    ManyLeafDepth(bs[i].child.leaf, Range(bs, q, i));
    Overflow.CountIsLength(Looked(bs, q, i).leaf.chain);
  }

  /** Honest trees of any height. */
  lemma {:induction false} HonestCalm(n: Node, lo: Option<Key>, hi: Option<Key>)
    requires Ordered(n, lo, hi) && Counted(n) && Honest(n, lo, hi)
    ensures Calm(n)
    decreases Height(n)
  {
    hide Ordered, Honest, Counted, Term, Looked, Settled, Content, Range, AllGuaranteed;
    if n.Internal? {
      HonestEdits(n, lo, hi);
      forall i | 0 <= i < |n.branches|
        ensures CalmAt(n.branches, n.queue, i)
      {
        RangeGuaranteed(n.branches, n.queue, i);
        GuaranteedLook(n.branches, n.queue, i);
        SettledFacts(n, i, lo, hi);
        SettledContentCount(n, i, lo, hi);
        HonestCalm(Settled(n.branches, n.queue, i), Lo(n.branches, i, lo), Hi(n.branches, i, hi));
      }
    }
  }

  lemma SeekableCalm(n: Node, lo: Option<Key>, hi: Option<Key>)
    requires Ordered(n, lo, hi) && Parsed(n) && Seekable(n, lo, hi)
    ensures Calm(n)
  {
    hide Ordered, Parsed, Countable;
    if n.Internal? {
      forall i | 0 <= i < |n.branches|
        ensures CalmAt(n.branches, n.queue, i)
      {
        CountableCalm(n, i, lo, hi);
      }
    }
  }

  lemma CountableCalm(n: Node, i: nat, lo: Option<Key>, hi: Option<Key>)
    requires n.Internal? && Ordered(n, lo, hi) && Parsed(n) && i < |n.branches| && Countable(n, i, lo, hi)
    ensures CalmAt(n.branches, n.queue, i)
  {
    hide Ordered, Parsed, AllGuaranteed, Content, Range, ApplyMany;
    var bs, q := n.branches, n.queue;
    if bs[i].child.Leaf? {
      LeafLook(bs, q, i);
    } else {
      SettledOrdered(n, i, lo, hi);
      HonestCalm(Settled(bs, q, i), Lo(bs, i, lo), Hi(bs, i, hi));
    }
    if AllGuaranteed(Range(bs, q, i)) {
      GuaranteedLook(bs, q, i);
      GuaranteedBranch(n, i, lo, hi);
    }
  }

  /** Where the counts can be trusted, seek(m) finds a place if and only if there are more than m items. */
  lemma SeekBeyond(n: Node, m: nat, lo: Option<Key>, hi: Option<Key>)
    requires Ordered(n, lo, hi) && Parsed(n) && Seekable(n, lo, hi)
    ensures var (t, place) := Seek(n, m, lo, hi);
            |Content(t)| == |Content(n)| && (place.Some? <==> m < |Content(n)|)
  {
    hide Ordered, Parsed, Seekable, Seek, Content, Calm, Offset;
    SeekableCalm(n, lo, hi);
    CalmReads(n, m, lo, hi);
  }

  // ---------------------------------------------------------------- how far a count is off

  /**
   * What the waiting edits promise by their flags, less what each of them does
   * to the bag of its leaf when its turn comes; added up over the leaves.
   */
  function Slack(n: Node): int
    decreases Height(n), 1, 0
  {
    match n
    case Leaf(_) => 0
    case Internal(bs, q) => SlackFrom(bs, q, 0)
  }

  function BranchSlack(bs: seq<Branch>, q: seq<Edit>, i: nat): int
    requires i < |bs|
    decreases 1 + MaxHeight(bs), 0, 0
  {
    var c, es := bs[i].child, Range(bs, q, i);
    match c
    case Leaf(l) => GuaranteedDeltas(es) - Gain(l, es)
    case Internal(_, _) =>
      SettledHeight(bs, q, i);
      Slack(ApplyMany(c, es, false))
  }

  function SlackFrom(bs: seq<Branch>, q: seq<Edit>, i: nat): int
    requires i <= |bs|
    decreases 1 + MaxHeight(bs), 0, 1 + |bs| - i
  {
    if i == |bs| then 0 else BranchSlack(bs, q, i) + SlackFrom(bs, q, i + 1)
  }

  /** On any counted tree, whatever its flags: the item count is off by the slack. */
  lemma {:induction false} CountIs(n: Node, lo: Option<Key>, hi: Option<Key>)
    requires Ordered(n, lo, hi) && Counted(n)
    ensures ItemCount(n) == |Content(n)| + Slack(n)
    decreases Height(n), 1, 0
  {
    hide Ordered, Content, ContentFrom, SlackFrom, BranchSum, CountFrom, Counted;
    match n
    case Leaf(l) =>
      ContentStart(n);
      Overflow.CountIsLength(l.chain);
    case Internal(bs, q) =>
      OrderedParts(n, lo, hi);
      ContentStart(n);
      CountFromIs(n, 0, lo, hi);
      CountFromSums(bs, q, lo, hi, 0);
      assert bs[0..] == bs && q[0..] == q;
  }

  lemma {:induction false} BranchCountIs(n: Node, i: nat, lo: Option<Key>, hi: Option<Key>)
    requires n.Internal? && Ordered(n, lo, hi) && Counted(n) && i < |n.branches|
    ensures n.branches[i].count + GuaranteedDeltas(Range(n.branches, n.queue, i))
         == |Content(Settled(n.branches, n.queue, i))| + BranchSlack(n.branches, n.queue, i)
    decreases Height(n), 0, 0
  {
    hide Ordered, Content, Range;
    var bs, q := n.branches, n.queue;
    var c, es := bs[i].child, Range(bs, q, i);
    match c
    case Leaf(l) =>
      ManyLeafGain(l, es);
      LeafLook(bs, q, i);
    case Internal(_, _) =>
      ManyShallowCount(c, es);
      SettledOrdered(n, i, lo, hi);
      CountedSame(c, Settled(bs, q, i));
      CountIs(Settled(bs, q, i), Lo(bs, i, lo), Hi(bs, i, hi));
  }

  lemma CountedSame(c: Node, d: Node)
    requires c.Internal? && d.Internal? && d.branches == c.branches && Counted(c)
    ensures Counted(d)
  {
  }

  lemma {:induction false} CountFromIs(n: Node, i: nat, lo: Option<Key>, hi: Option<Key>)
    requires n.Internal? && Ordered(n, lo, hi) && Counted(n) && i <= |n.branches|
    ensures CountFrom(n.branches, n.queue, i) == |ContentFrom(n.branches, n.queue, i)|
            + SlackFrom(n.branches, n.queue, i)
    decreases Height(n), 0, 1 + |n.branches| - i
  {
    hide Ordered, Content, ContentFrom, Range, BranchSlack, Counted, GuaranteedDeltas, Settled;
    if i < |n.branches| {
      BranchCountIs(n, i, lo, hi);
      CountFromIs(n, i + 1, lo, hi);
      ContentFromStep(n.branches, n.queue, i);
    } else {
      assert ContentFrom(n.branches, n.queue, i) == [] by { NoneFrom(n.branches, n.queue); }
    }
  }

  lemma NoneFrom(bs: seq<Branch>, q: seq<Edit>)
    ensures ContentFrom(bs, q, |bs|) == []
  {
  }

  /** What waits for branch i after the look, or in it, against its flags. */
  function LookSlack(bs: seq<Branch>, q: seq<Edit>, i: nat): int
    requires i < |bs|
  {
    if AllGuaranteed(Range(bs, q, i)) then BranchSlack(bs, q, i) else Slack(Looked(bs, q, i))
  }

  lemma {:induction false} ManyCounts(n: Node, es: seq<Edit>, deep: bool)
    requires Counted(n)
    ensures Counted(ApplyMany(n, es, deep))
    decreases |es|
  {
    if |es| > 0 {
      ApplyCounted(n, es[0], deep);
      ManyCounts(Apply(n, es[0], deep), es[1..], deep);
    }
  }

  lemma TermIs(n: Node, i: nat, lo: Option<Key>, hi: Option<Key>)
    requires n.Internal? && Ordered(n, lo, hi) && Parsed(n) && Counted(n) && i < |n.branches|
    ensures Term(n.branches, n.queue, i)
         == |Content(Looked(n.branches, n.queue, i))| + LookSlack(n.branches, n.queue, i)
  {
    hide Ordered, Parsed, Content, Range, BranchSlack, AllGuaranteed, Slack, ItemCount;
    var bs, q := n.branches, n.queue;
    if AllGuaranteed(Range(bs, q, i)) {
      GuaranteedLook(bs, q, i);
      BranchCountIs(n, i, lo, hi);
    } else {
      LookedOrdered(n, i, lo, hi);
      ManyCounts(bs[i].child, Range(bs, q, i), true);
      CountIs(Looked(bs, q, i), Lo(bs, i, lo), Hi(bs, i, hi));
    }
  }

  /**
   * pendingRankDelta on a child of any height, with any flags: the stored count
   * and the reported delta are the number of items then in the child if and only
   * if the edits that still wait for the child or below it do, in all, what their
   * flags promise.
   */
  lemma DeltaExact(n: Node, i: nat, lo: Option<Key>, hi: Option<Key>)
    requires n.Internal? && Ordered(n, lo, hi) && Parsed(n) && Counted(n) && i < |n.branches|
    ensures var (t, delta) := RankDelta(n, i, lo, hi);
            t.branches[i].count + delta == |Content(Settled(t.branches, t.queue, i))|
            <==> LookSlack(n.branches, n.queue, i) == 0
  {
    hide Ordered, Parsed, Content, Range, LookSlack, RankDelta, Settled, Looked, Term, Counted;
    Looks(n, i, lo, hi);
    TermIs(n, i, lo, hi);
  }
}
