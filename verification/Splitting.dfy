/** Page sizes and the splits they force: overflow chains, leaves and internal nodes. */
module Splitting {
  import opened Types
  import opened Multimap
  import opened Tree
  import opened Meaning
  import opened Lookup
  import opened Contents
  import opened BranchLists
  import Leaves
  import Overflow

  /** Block size, edit queue size, and the bytes each key takes. */
  datatype Config = Config(block: nat, queue: nat, keySize: Key -> nat)

  /** Flags and item count: 2 + 4 bytes. */
  const HEADER: nat := 6

  /** The reference to an overflow node: a count of 4 bytes and an id of 20. */
  const LINK: nat := 24

  /** A branch, without its separator: an id of 20 bytes and a count of 4. */
  const BRANCH: nat := 24

  predicate TooBig(block: nat, size: nat) { block != 0 && block < size }

  // ---------------------------------------------------------------- overflow nodes

  function ValuesSize(vs: seq<Value>): nat {
    if |vs| == 0 then 0 else |vs[0]| + ValuesSize(vs[1..])
  }

  function OverflowSize(vs: seq<Value>): nat { HEADER + LINK + ValuesSize(vs) }

  /** Index of the first value that no longer fits, with `size` bytes taken before position i. */
  function OverflowSplit(block: nat, vs: seq<Value>, i: nat, size: nat): (r: nat)
    requires i <= |vs|
    ensures i <= r <= |vs|
    decreases |vs| - i
  {
    if i == |vs| then i
    else if size + |vs[i]| > block then i
    else OverflowSplit(block, vs, i + 1, size + |vs[i]|)
  }

  lemma {:induction false} OverflowSplitStops(block: nat, vs: seq<Value>, i: nat, size: nat)
    requires i <= |vs| && size == OverflowSize(vs[..i])
    requires OverflowSize(vs) > block
    requires i == |vs| ==> size > block
    ensures i < |vs| ==> OverflowSplit(block, vs, i, size) < |vs|
    decreases |vs| - i
  {
    if i < |vs| && size + |vs[i]| <= block {
      assert vs[..i + 1] == vs[..i] + [vs[i]];
      ValuesSizeConcat(vs[..i], [vs[i]]);
      assert [vs[i]][1..] == [];
      assert vs[..|vs|] == vs;
      OverflowSplitStops(block, vs, i + 1, size + |vs[i]|);
    }
  }

  /** What the next node becomes when the values from position j on move to it. */
  function Moved(c: Overflow.Chain, j: nat): Overflow.Chain
    requires c.Node? && j <= |c.values|
  {
    var moved := c.values[j..];
    if c.next.End? then Overflow.Node(|moved|, 0, true, moved, Overflow.End)
    else Overflow.Node(|c.next.values| + |moved| + Overflow.Count(c.next.next), c.next.id, true,
                       c.next.values + moved, c.next.next)
  }

  lemma MovedShorter(c: Overflow.Chain, j: nat)
    requires c.Node? && 0 < j <= |c.values|
    ensures |Overflow.Flat(Moved(c, j))| < |Overflow.Flat(c)|
  {
  }

  /** pushDownOverflowNodeSize: what exceeds the block moves to the next node. */
  function PushDown(block: nat, c: Overflow.Chain): Overflow.Chain
    decreases |Overflow.Flat(c)|
  {
    if c.End? || !TooBig(block, OverflowSize(c.values)) then c
    else
      var j := OverflowSplit(block, c.values, 0, HEADER + LINK);
      if j == 0 then c  // a value larger than a page: the recursion of the code would not end
      else
        MovedShorter(c, j);
        Overflow.Node(c.count, c.id, c.loaded, c.values[..j], PushDown(block, Moved(c, j)))
  }

  /**
   * The code gets through: wherever values have to move on, some stay, and the
   * next node, if there is one, is in memory.
   */
  predicate Movable(block: nat, c: Overflow.Chain)
    decreases |Overflow.Flat(c)|
  {
    if c.End? || !TooBig(block, OverflowSize(c.values)) then true
    else
      var j := OverflowSplit(block, c.values, 0, HEADER + LINK);
      if j == 0 then false
      else
        MovedShorter(c, j);
        (c.next.Node? ==> c.next.loaded) && Movable(block, Moved(c, j))
  }

  /** Every value fits a page of its own. */
  ghost predicate ValuesFit(block: nat, c: Overflow.Chain) {
    forall i :: 0 <= i < |Overflow.Flat(c)| ==> HEADER + LINK + |Overflow.Flat(c)[i]| <= block
  }

  /** Every node of the chain is within the block size. */
  ghost predicate ChainFits(block: nat, c: Overflow.Chain) {
    c.Node? ==> OverflowSize(c.values) <= block && ChainFits(block, c.next)
  }

  lemma {:induction false} ValuesSizeConcat(a: seq<Value>, b: seq<Value>)
    ensures ValuesSize(a + b) == ValuesSize(a) + ValuesSize(b)
  {
    if |a| == 0 {
      assert a + b == b;
    } else {
      assert (a + b)[1..] == a[1..] + b;
      ValuesSizeConcat(a[1..], b);
    }
  }

  lemma {:induction false} OverflowSplitFits(block: nat, vs: seq<Value>, i: nat, size: nat)
    requires i <= |vs| && size == HEADER + LINK + ValuesSize(vs[..i]) && size <= block
    ensures var r := OverflowSplit(block, vs, i, size); OverflowSize(vs[..r]) <= block
    decreases |vs| - i
  {
    if i < |vs| && size + |vs[i]| <= block {
      assert vs[..i + 1] == vs[..i] + [vs[i]];
      ValuesSizeConcat(vs[..i], [vs[i]]);
      assert [vs[i]][1..] == [];
      OverflowSplitFits(block, vs, i + 1, size + |vs[i]|);
    }
  }

  /**
   * When every value fits a page, a split leaves something in the node and
   * moves less on, so the recursion of the code ends.
   */
  lemma SplitsInside(block: nat, c: Overflow.Chain)
    requires c.Node? && Overflow.Valid(c) && TooBig(block, OverflowSize(c.values)) && ValuesFit(block, c)
    ensures var j := OverflowSplit(block, c.values, 0, HEADER + LINK);
            0 < j < |c.values| && OverflowSize(c.values[..j]) <= block
  {
    assert c.values[..0] == [];
    assert Overflow.Flat(c)[0] == c.values[0];
    assert HEADER + LINK + |Overflow.Flat(c)[0]| <= block;
    OverflowSplitFits(block, c.values, 0, HEADER + LINK);
    OverflowSplitStops(block, c.values, 0, HEADER + LINK);
  }

  lemma MovedIs(block: nat, c: Overflow.Chain, j: nat)
    requires c.Node? && Overflow.Valid(c) && 0 < j < |c.values|
    ensures var n := Moved(c, j);
            && Overflow.Valid(n) && |Overflow.Flat(n)| < |Overflow.Flat(c)|
            && multiset(Overflow.Flat(c)) == multiset(c.values[..j]) + multiset(Overflow.Flat(n))
            && (c.next.End? ==> Overflow.Flat(c) == c.values[..j] + Overflow.Flat(n))
            && c.count == j + Overflow.Count(n)
  {
    assert c.values == c.values[..j] + c.values[j..];
    Overflow.CountIsLength(c);
  }

  lemma MovedFits(block: nat, c: Overflow.Chain, j: nat)
    requires c.Node? && Overflow.Valid(c) && 0 < j < |c.values| && ValuesFit(block, c)
    ensures ValuesFit(block, Moved(c, j))
  {
    var n := Moved(c, j);
    forall i | 0 <= i < |Overflow.Flat(n)|
      ensures HEADER + LINK + |Overflow.Flat(n)[i]| <= block
    {
      MovedFrom(c, j, i);
    }
  }

  /** Every moved-on position holds a value of the original chain. */
  lemma MovedFrom(c: Overflow.Chain, j: nat, i: nat)
    requires c.Node? && 0 < j < |c.values| && i < |Overflow.Flat(Moved(c, j))|
    ensures exists x :: 0 <= x < |Overflow.Flat(c)| && Overflow.Flat(c)[x] == Overflow.Flat(Moved(c, j))[i]
  {
    var front := if c.next.End? then [] else c.next.values;
    var tail := if c.next.End? then [] else Overflow.Flat(c.next.next);
    assert Overflow.Flat(c) == c.values + (front + tail);
    assert Overflow.Flat(Moved(c, j)) == front + c.values[j..] + tail;
    MovedIndex(c.values, front, tail, j, i);
  }

  lemma MovedIndex(vs: seq<Value>, front: seq<Value>, tail: seq<Value>, j: nat, i: nat)
    requires j < |vs| && i < |front + vs[j..] + tail|
    ensures exists x :: 0 <= x < |vs + (front + tail)| && (vs + (front + tail))[x] == (front + vs[j..] + tail)[i]
  {
    var f := vs + (front + tail);
    if i < |front| {
      assert f[|vs| + i] == front[i];
    } else if i < |front| + |vs| - j {
      assert f[j + i - |front|] == vs[j..][i - |front|];
    } else {
      assert f[j + i] == tail[i - |front| - (|vs| - j)];
    }
  }

  /** Pushing down conserves: same values, same count, same order if there was no next node. */
  lemma {:induction false} PushDownKeeps(block: nat, c: Overflow.Chain)
    requires Overflow.Valid(c)
    ensures var r := PushDown(block, c);
            && Overflow.Valid(r) && Overflow.Count(r) == Overflow.Count(c)
            && multiset(Overflow.Flat(r)) == multiset(Overflow.Flat(c))
            && (c.Node? && c.next.End? ==> Overflow.Flat(r) == Overflow.Flat(c))
            && r.End? == c.End?
    decreases |Overflow.Flat(c)|
  {
    if c.Node? && TooBig(block, OverflowSize(c.values)) {
      var j := OverflowSplit(block, c.values, 0, HEADER + LINK);
      assert c.values[..0] == [];
      OverflowSplitStops(block, c.values, 0, HEADER + LINK);
      if j > 0 {
        MovedIs(block, c, j);
        PushDownKeeps(block, Moved(c, j));
        PushDownStep(block, c, j);
      }
    }
  }

  lemma PushDownStep(block: nat, c: Overflow.Chain, j: nat)
    requires c.Node? && TooBig(block, OverflowSize(c.values))
    requires j == OverflowSplit(block, c.values, 0, HEADER + LINK) && 0 < j
    ensures PushDown(block, c) == Overflow.Node(c.count, c.id, c.loaded, c.values[..j], PushDown(block, Moved(c, j)))
  {
  }

  /** Afterwards every node is within the block size, if the nodes behind the first were. */
  lemma {:induction false} PushDownFits(block: nat, c: Overflow.Chain)
    requires block > 0 && Overflow.Valid(c) && ValuesFit(block, c)
    requires c.Node? ==> ChainFits(block, c.next)
    ensures ChainFits(block, PushDown(block, c))
    decreases |Overflow.Flat(c)|
  {
    if c.Node? && TooBig(block, OverflowSize(c.values)) {
      SplitsInside(block, c);
      var j := OverflowSplit(block, c.values, 0, HEADER + LINK);
      MovedIs(block, c, j);
      MovedFits(block, c, j);
      PushDownFits(block, Moved(c, j));
      PushDownStep(block, c, j);
    }
  }

  // ---------------------------------------------------------------- leaves

  function PairSize(cfg: Config, p: Pair): nat { cfg.keySize(p.key) + |p.value| }

  function PairsSize(cfg: Config, ps: seq<Pair>): nat {
    if |ps| == 0 then 0 else PairSize(cfg, ps[0]) + PairsSize(cfg, ps[1..])
  }

  function LeafSize(cfg: Config, ps: seq<Pair>): nat { HEADER + LINK + PairsSize(cfg, ps) }

  /** Half a block, rounded up. */
  function Piece(cfg: Config): nat { (cfg.block + 1) / 2 }

  /** `here`: the first position at which the running size exceeds half a block. */
  function Here(cfg: Config, ps: seq<Pair>, i: nat, size: nat): (r: nat)
    requires i <= |ps|
    ensures i <= r <= |ps|
    decreases |ps| - i
  {
    if i == |ps| then i
    else if size + PairSize(cfg, ps[i]) > Piece(cfg) then i
    else Here(cfg, ps, i + 1, size + PairSize(cfg, ps[i]))
  }

  /** Where the key at position h starts. */
  function KeyStart(ps: seq<Pair>, h: nat): (r: nat)
    requires h < |ps|
    ensures r <= h && (r > 0 ==> ps[r - 1].key != ps[r].key)
    ensures forall i :: r <= i <= h ==> ps[i].key == ps[h].key
  {
    if h == 0 || ps[h - 1].key != ps[h].key then h else KeyStart(ps, h - 1)
  }

  /** The first position from i on with another key than k. */
  function KeyEnd(ps: seq<Pair>, k: Key, i: nat): (r: nat)
    requires i <= |ps|
    ensures i <= r <= |ps| && (r < |ps| ==> ps[r].key != k)
    ensures forall j :: i <= j < r ==> ps[j].key == k
    decreases |ps| - i
  {
    if i < |ps| && ps[i].key == k then KeyEnd(ps, k, i + 1) else i
  }

  /** overflowStart and splitStart of a leaf that is too big. */
  function LeafCuts(cfg: Config, ps: seq<Pair>): (r: (nat, nat))
    ensures |ps| > 0 ==> 0 < r.0 <= r.1 <= |ps|
  {
    var h := Here(cfg, ps, 0, HEADER + LINK);
    if |ps| == 0 then (0, 0)
    else if h == |ps| then (|ps|, |ps|)  // not reached by a leaf that is too big
    else (KeyStart(ps, h) + 1, KeyEnd(ps, ps[h].key, h))
  }

  function Values(ps: seq<Pair>): (r: seq<Value>)
    ensures |r| == |ps|
  {
    seq(|ps|, i requires 0 <= i < |ps| => ps[i].value)
  }

  /** A new overflow node, before it is pushed down. */
  function Fresh(vs: seq<Value>): Overflow.Chain {
    Overflow.Node(|vs|, 0, true, vs, Overflow.End)
  }

  /** A new overflow node for the pairs cut out, already pushed down. */
  function NewChain(block: nat, vs: seq<Value>): (r: Overflow.Chain)
    ensures Overflow.Valid(r) && Overflow.Flat(r) == vs
  {
    if |vs| == 0 then Overflow.End
    else
      var c := Fresh(vs);
      PushDownKeeps(block, c);
      assert Overflow.Flat(c) == vs + [];
      PushDown(block, c)
  }

  function LeafBranch(sep: Option<Key>, l: Leaves.Valid): Branch {
    Branch(sep, Leaves.Count(l), 0, true, Leaf(l))
  }

  /** All pairs and chain values of a leaf leave room for at least two pairs in a page. */
  ghost predicate PairsFit(cfg: Config, ps: seq<Pair>) {
    cfg.block >= 60 && forall i :: 0 <= i < |ps| ==> PairSize(cfg, ps[i]) <= cfg.block / 2
  }

  lemma {:induction false} PairsSizeConcat(cfg: Config, a: seq<Pair>, b: seq<Pair>)
    ensures PairsSize(cfg, a + b) == PairsSize(cfg, a) + PairsSize(cfg, b)
  {
    if |a| == 0 {
      assert a + b == b;
    } else {
      assert (a + b)[1..] == a[1..] + b;
      PairsSizeConcat(cfg, a[1..], b);
    }
  }

  lemma PairsSizeOne(cfg: Config, p: Pair)
    ensures PairsSize(cfg, [p]) == PairSize(cfg, p)
  {
    assert [p][1..] == [];
  }

  /** Before `here` the pairs fit half a block; with it they do not. */
  lemma {:induction false} HereIs(cfg: Config, ps: seq<Pair>, i: nat, size: nat)
    requires i <= |ps| && size == LeafSize(cfg, ps[..i]) && (i == 0 || size <= Piece(cfg))
    ensures var h := Here(cfg, ps, i, size);
            && (h == 0 || LeafSize(cfg, ps[..h]) <= Piece(cfg))
            && (h < |ps| ==> LeafSize(cfg, ps[..h + 1]) > Piece(cfg))
    decreases |ps| - i
  {
    if i < |ps| {
      assert ps[..i + 1] == ps[..i] + [ps[i]];
      PairsSizeConcat(cfg, ps[..i], [ps[i]]);
      PairsSizeOne(cfg, ps[i]);
      if size + PairSize(cfg, ps[i]) <= Piece(cfg) {
        HereIs(cfg, ps, i + 1, size + PairSize(cfg, ps[i]));
      }
    } else {
      assert ps[..i] == ps;
    }
  }

  function LeftLeaf(block: nat, l: Leaves.Valid, ov: nat, sp: nat): (r: Leaves.Valid)
    requires 0 < ov <= sp <= |l.pairs|
    requires ov > 1 ==> l.pairs[ov - 2].key != l.pairs[ov - 1].key
  {
    var left := l.pairs[..ov];
    assert Sorted(left);
    Leaves.LeafData(left, NewChain(block, Values(l.pairs[ov..sp])))
  }

  function RightLeaf(l: Leaves.Valid, sp: nat): (r: Leaves.Valid)
    requires sp < |l.pairs|
  {
    var right := l.pairs[sp..];
    assert Sorted(right);
    assert Last(right) == Last(l.pairs);
    Leaves.LeafData(right, l.chain)
  }

  predicate Splits(cfg: Config, l: Leaves.Valid) {
    TooBig(cfg.block, LeafSize(cfg, l.pairs)) && |l.pairs| > 0
  }

  lemma CutsStartKey(cfg: Config, ps: seq<Pair>)
    requires |ps| > 0 && Here(cfg, ps, 0, HEADER + LINK) < |ps|
    ensures LeafCuts(cfg, ps).0 > 1 ==> ps[LeafCuts(cfg, ps).0 - 2].key != ps[LeafCuts(cfg, ps).0 - 1].key
  {
  }

  lemma HereInside(cfg: Config, l: Leaves.Valid)
    requires Splits(cfg, l)
    ensures Here(cfg, l.pairs, 0, HEADER + LINK) < |l.pairs|
  {
    assert l.pairs[..0] == [];
    HereIs(cfg, l.pairs, 0, HEADER + LINK);
    assert l.pairs[..|l.pairs|] == l.pairs;
  }

  /** maybeSplitLeaf. */
  function SplitLeaf(cfg: Config, l: Leaves.Valid): (r: seq<Branch>)
    ensures |r| > 0
    decreases |l.pairs|
  {
    if !Splits(cfg, l) then [LeafBranch(None, l)]
    else
      HereInside(cfg, l);
      CutsStartKey(cfg, l.pairs);
      var (ov, sp) := LeafCuts(cfg, l.pairs);
      var left := LeftLeaf(cfg.block, l, ov, sp);
      // the old chain has nowhere to go: the code asserts there is none
      if sp == |l.pairs| then [LeafBranch(None, left)]
      else [LeafBranch(None, left)] + WithFirst(SplitLeaf(cfg, RightLeaf(l, sp)), Some(l.pairs[sp].key))
  }

  /** The assertion of maybeSplitLeaf holds at every turn: an old chain always finds a right leaf. */
  predicate NotStranded(cfg: Config, l: Leaves.Valid)
    decreases |l.pairs|
  {
    Splits(cfg, l) ==>
      var sp := LeafCuts(cfg, l.pairs).1;
      if sp == |l.pairs| then l.chain.End?
      else sp > 0 && NotStranded(cfg, RightLeaf(l, sp))
  }

  /** Every new chain can be pushed down: the recursion of the code ends. */
  predicate ChainsEnd(cfg: Config, ps: seq<Pair>)
    decreases |ps|
  {
    TooBig(cfg.block, LeafSize(cfg, ps)) && |ps| > 0 ==>
      var (ov, sp) := LeafCuts(cfg, ps);
      Movable(cfg.block, Fresh(Values(ps[ov..sp]))) && (sp < |ps| ==> ChainsEnd(cfg, ps[sp..]))
  }

  // -- contents

  lemma LeftItems(block: nat, l: Leaves.Valid, ov: nat, sp: nat)
    requires 0 < ov <= sp <= |l.pairs|
    requires ov > 1 ==> l.pairs[ov - 2].key != l.pairs[ov - 1].key
    requires forall i :: ov <= i < sp ==> l.pairs[i].key == l.pairs[ov - 1].key
    ensures Leaves.Items(LeftLeaf(block, l, ov, sp)) == l.pairs[..sp]
  {
    var left := LeftLeaf(block, l, ov, sp);
    var vs := Values(l.pairs[ov..sp]);
    assert Overflow.Flat(left.chain) == vs;
    assert Leaves.Under(Last(left.pairs).key, vs) == l.pairs[ov..sp];
    assert l.pairs[..ov] + l.pairs[ov..sp] == l.pairs[..sp];
  }

  lemma CutKeys(cfg: Config, ps: seq<Pair>)
    requires |ps| > 0 && Here(cfg, ps, 0, HEADER + LINK) < |ps| && Sorted(ps)
    ensures var (ov, sp) := LeafCuts(cfg, ps);
            && 0 < ov <= sp <= |ps|
            && (forall i :: ov <= i < sp ==> ps[i].key == ps[ov - 1].key)
            && (sp < |ps| ==> forall i :: 0 <= i < sp ==> ps[i].key < ps[sp].key)
  {
  }

  /** The leaves of a split, with their chains, read as the original pairs and then the original chain. */
  lemma {:induction false} SplitLeafContent(cfg: Config, l: Leaves.Valid)
    requires NotStranded(cfg, l)
    ensures ListContent(SplitLeaf(cfg, l)) == Leaves.Items(l)
    decreases |l.pairs|
  {
    if !Splits(cfg, l) {
      SingleContent(LeafBranch(None, l));
    } else {
      HereInside(cfg, l);
      CutsStartKey(cfg, l.pairs);
      CutKeys(cfg, l.pairs);
      var (ov, sp) := LeafCuts(cfg, l.pairs);
      var left := LeftLeaf(cfg.block, l, ov, sp);
      LeftItems(cfg.block, l, ov, sp);
      SingleContent(LeafBranch(None, left));
      if sp == |l.pairs| {
        assert l.pairs[..sp] == l.pairs;
        assert Leaves.Items(l) == l.pairs + [];
      } else {
        var right := RightLeaf(l, sp);
        SplitLeafContent(cfg, right);
        ListContentFirst(SplitLeaf(cfg, right), Some(l.pairs[sp].key));
        ListContentJoin([LeafBranch(None, left)], WithFirst(SplitLeaf(cfg, right), Some(l.pairs[sp].key)));
        RightItems(l, sp);
      }
    }
  }

  lemma SingleContent(b: Branch)
    ensures ListContent([b]) == Content(b.child)
  {
    assert [b][1..] == [];
    assert ListContent([b]) == Content(b.child) + [];
  }

  lemma RightItems(l: Leaves.Valid, sp: nat)
    requires sp < |l.pairs|
    ensures l.pairs[..sp] + Leaves.Items(RightLeaf(l, sp)) == Leaves.Items(l)
  {
    var a, b := l.pairs[..sp], l.pairs[sp..];
    var u := Leaves.Under(Last(l.pairs).key, Overflow.Flat(l.chain));
    assert l.pairs == a + b && Last(b) == Last(l.pairs);
    assert a + (b + u) == (a + b) + u;
  }

  // -- order

  /** Search-ordered leaves whose separators are their first keys, all above the key k from the second on. */
  ghost predicate LeafList(bs: seq<Branch>, first: Key, lo: Option<Key>, hi: Option<Key>) {
    && OrderedList(bs, lo, hi)
    && bs[0].minKey == None
    && forall i :: 0 < i < |bs| ==>
         && bs[i].minKey.value > first
         && bs[i].child.Leaf? && |bs[i].child.leaf.pairs| > 0
         && bs[i].minKey.value == bs[i].child.leaf.pairs[0].key
  }

  lemma SingleOrdered(b: Branch, lo: Option<Key>, hi: Option<Key>)
    requires Ordered(b.child, lo, hi)
    ensures OrderedList([b], lo, hi)
  {
  }

  lemma SplitJoin(left: Branch, rest: seq<Branch>, right: Leaves.Valid, first: Key, lo: Option<Key>, hi: Option<Key>)
    requires |right.pairs| > 0
    requires var m := right.pairs[0].key;
             && left.minKey == None && Ordered(left.child, lo, Some(m)) && first < m && AtLeast(lo, first) &&
               StrictlyWithin(lo, hi, m)
             && LeafList(rest, m, Some(m), hi)
             && rest[0].child.Leaf? && |rest[0].child.leaf.pairs| > 0 && rest[0].child.leaf.pairs[0].key == m
    ensures LeafList([left] + WithFirst(rest, Some(right.pairs[0].key)), first, lo, hi)
  {
    var m := right.pairs[0].key;
    var d := WithFirst(rest, Some(m));
    SingleOrdered(left, lo, Some(m));
    WithFirstOrdered(rest, Some(m), Some(m), hi);
    JoinOrdered([left], d, m, lo, hi);
    var c := [left] + d;
    forall i | 0 < i < |c|
      ensures c[i].minKey.value > first && c[i].child.Leaf? && |c[i].child.leaf.pairs| > 0
      ensures c[i].minKey.value == c[i].child.leaf.pairs[0].key
    {
      assert c[i] == d[i - 1];
      assert i > 1 ==> c[i] == rest[i - 1];
    }
  }

  lemma SingleLeafList(b: Branch, first: Key, lo: Option<Key>, hi: Option<Key>)
    requires Ordered(b.child, lo, hi) && b.minKey == None
    ensures LeafList([b], first, lo, hi)
  {
    SingleOrdered(b, lo, hi);
  }

  lemma CutWithin(ps: seq<Pair>, sp: nat, lo: Option<Key>, hi: Option<Key>)
    requires 0 < sp < |ps| && Sorted(ps) && PairsWithin(ps, lo, hi)
    requires forall i :: 0 <= i < sp ==> ps[i].key < ps[sp].key
    ensures PairsWithin(ps[..sp], lo, Some(ps[sp].key)) && PairsWithin(ps[sp..], Some(ps[sp].key), hi)
    ensures ps[0].key < ps[sp].key && AtLeast(lo, ps[0].key) && StrictlyWithin(lo, hi, ps[sp].key)
  {
  }

  /** No key ends up in two leaves, and the separators are strictly increasing first keys. */
  lemma {:induction false} SplitLeafOrdered(cfg: Config, l: Leaves.Valid, lo: Option<Key>, hi: Option<Key>)
    requires |l.pairs| > 0 && PairsWithin(l.pairs, lo, hi)
    ensures LeafList(SplitLeaf(cfg, l), l.pairs[0].key, lo, hi)
    ensures var r := SplitLeaf(cfg, l)[0].child; r.Leaf? && |r.leaf.pairs| > 0 && r.leaf.pairs[0] == l.pairs[0]
    decreases |l.pairs|
  {
    hide LeafList, OrderedList, ItemCount, Sorted, NewChain;
    if !Splits(cfg, l) {
      SingleLeafList(LeafBranch(None, l), l.pairs[0].key, lo, hi);
    } else {
      HereInside(cfg, l);
      CutsStartKey(cfg, l.pairs);
      CutKeys(cfg, l.pairs);
      var (ov, sp) := LeafCuts(cfg, l.pairs);
      var left := LeafBranch(None, LeftLeaf(cfg.block, l, ov, sp));
      if sp == |l.pairs| {
        SingleLeafList(left, l.pairs[0].key, lo, hi);
      } else {
        var right := RightLeaf(l, sp);
        CutWithin(l.pairs, sp, lo, hi);
        SplitLeafOrdered(cfg, right, Some(right.pairs[0].key), hi);
        SplitJoin(left, SplitLeaf(cfg, right), right, l.pairs[0].key, lo, hi);
      }
    }
  }

  // -- the assertion that an old chain finds a right leaf

  lemma {:induction false} PairsSizeGrows(cfg: Config, ps: seq<Pair>, i: nat, j: nat)
    requires i <= j <= |ps|
    ensures PairsSize(cfg, ps[..i]) <= PairsSize(cfg, ps[..j])
  {
    assert ps[..j] == ps[..i] + ps[i..j];
    PairsSizeConcat(cfg, ps[..i], ps[i..j]);
  }

  /**
   * A leaf that is too big is left without a right part exactly when all its
   * pairs below the last key fit in half a block.
   */
  lemma NoRightPart(cfg: Config, l: Leaves.Valid)
    requires Splits(cfg, l)
    ensures var s := KeyStart(l.pairs, |l.pairs| - 1);
            LeafCuts(cfg, l.pairs).1 == |l.pairs| <==> s == 0 || LeafSize(cfg, l.pairs[..s]) <= Piece(cfg)
  {
    var ps, h := l.pairs, Here(cfg, l.pairs, 0, HEADER + LINK);
    var s := KeyStart(ps, |ps| - 1);
    assert ps[..0] == [];
    HereIs(cfg, ps, 0, HEADER + LINK);
    HereInside(cfg, l);
    CutKeys(cfg, ps);
    if h < s {
      PairsSizeGrows(cfg, ps, h + 1, s);
      assert ps[h].key < ps[s].key;
    } else {
      PairsSizeGrows(cfg, ps, s, h);
    }
  }

  /** The bytes of the pairs of one key. */
  function RunSize(cfg: Config, ps: seq<Pair>, z: Key): nat {
    if |ps| == 0 then 0 else (if ps[0].key == z then PairSize(cfg, ps[0]) else 0) + RunSize(cfg, ps[1..], z)
  }

  lemma {:induction false} RunSizeConcat(cfg: Config, a: seq<Pair>, b: seq<Pair>, z: Key)
    ensures RunSize(cfg, a + b, z) == RunSize(cfg, a, z) + RunSize(cfg, b, z)
  {
    if |a| == 0 {
      assert a + b == b;
    } else {
      assert (a + b)[1..] == a[1..] + b;
      RunSizeConcat(cfg, a[1..], b, z);
    }
  }

  lemma {:induction false} RunSizeBounds(cfg: Config, ps: seq<Pair>, z: Key)
    ensures RunSize(cfg, ps, z) <= PairsSize(cfg, ps)
    ensures (forall i :: 0 <= i < |ps| ==> ps[i].key != z) ==> RunSize(cfg, ps, z) == 0
    ensures (forall i :: 0 <= i < |ps| ==> ps[i].key == z) ==> RunSize(cfg, ps, z) == PairsSize(cfg, ps)
  {
    if |ps| > 0 {
      RunSizeBounds(cfg, ps[1..], z);
    }
  }

  /** Cutting off lower keys leaves the run of the last key as it is. */
  lemma RunKept(cfg: Config, ps: seq<Pair>, sp: nat)
    requires sp < |ps| && forall i :: 0 <= i < sp ==> ps[i].key != Last(ps).key
    ensures RunSize(cfg, ps[sp..], Last(ps).key) == RunSize(cfg, ps, Last(ps).key)
  {
    assert ps == ps[..sp] + ps[sp..];
    RunSizeConcat(cfg, ps[..sp], ps[sp..], Last(ps).key);
    RunSizeBounds(cfg, ps[..sp], Last(ps).key);
  }

  /** With at most half a block of pairs at the last key, the assertion cannot fail. */
  lemma {:induction false} NeverStranded(cfg: Config, l: Leaves.Valid)
    requires cfg.block >= 60
    requires l.chain.Node? ==> RunSize(cfg, l.pairs, Last(l.pairs).key) <= cfg.block / 2
    ensures NotStranded(cfg, l)
    decreases |l.pairs|
  {
    hide RunSize, PairsSize;
    if Splits(cfg, l) {
      var sp := LeafCuts(cfg, l.pairs).1;
      HereInside(cfg, l);
      CutKeys(cfg, l.pairs);
      if sp == |l.pairs| {
        if l.chain.Node? {
          ShortRunCut(cfg, l);
        }
      } else {
        RunKept(cfg, l.pairs, sp);
        NeverStranded(cfg, RightLeaf(l, sp));
      }
    }
  }

  lemma ShortRunCut(cfg: Config, l: Leaves.Valid)
    requires cfg.block >= 60 && Splits(cfg, l) && RunSize(cfg, l.pairs, Last(l.pairs).key) <= cfg.block / 2
    ensures LeafCuts(cfg, l.pairs).1 < |l.pairs|
  {
    hide RunSize, PairsSize;
    NoRightPart(cfg, l);
    var ps := l.pairs;
    var s := KeyStart(ps, |ps| - 1);
    BelowRun(ps, s);
    RunKept(cfg, ps, s);
    RunSizeBounds(cfg, ps[s..], Last(ps).key);
    assert ps == ps[..s] + ps[s..];
    PairsSizeConcat(cfg, ps[..s], ps[s..]);
    NoPairsSize(cfg);
    assert ps[..0] == [];
  }

  lemma BelowRun(ps: seq<Pair>, s: nat)
    requires s < |ps| && Sorted(ps) && (s > 0 ==> ps[s - 1].key != ps[s].key)
    ensures forall i :: 0 <= i < s ==> ps[i].key < ps[s].key
  {
  }

  lemma NoPairsSize(cfg: Config)
    ensures PairsSize(cfg, []) == 0
  {
  }

  /** With more pairs at the last key than fit a page, and a chain, it fails. */
  lemma {:induction false} Stranded(cfg: Config, l: Leaves.Valid)
    requires cfg.block > 0 && l.chain.Node?
    requires HEADER + LINK + RunSize(cfg, l.pairs, Last(l.pairs).key) > cfg.block
    ensures !NotStranded(cfg, l)
    decreases |l.pairs|
  {
    hide RunSize, PairsSize;
    RunSizeBounds(cfg, l.pairs, Last(l.pairs).key);
    var sp := LeafCuts(cfg, l.pairs).1;
    HereInside(cfg, l);
    CutKeys(cfg, l.pairs);
    if sp < |l.pairs| {
      RunKept(cfg, l.pairs, sp);
      Stranded(cfg, RightLeaf(l, sp));
    }
  }

  /** What is left of the pairs for the last turn of the split. */
  function LastPart(cfg: Config, ps: seq<Pair>): (r: seq<Pair>)
    decreases |ps|
  {
    var sp := LeafCuts(cfg, ps).1;
    if TooBig(cfg.block, LeafSize(cfg, ps)) && 0 < sp < |ps| then LastPart(cfg, ps[sp..]) else ps
  }

  /** In front of a chain the assertion holds if and only if the last part of the split fits a page. */
  lemma {:induction false} StrandedExact(cfg: Config, l: Leaves.Valid)
    requires l.chain.Node?
    ensures NotStranded(cfg, l) <==> !TooBig(cfg.block, LeafSize(cfg, LastPart(cfg, l.pairs)))
    decreases |l.pairs|
  {
    hide PairsSize, LeafCuts;
    if Splits(cfg, l) {
      var sp := LeafCuts(cfg, l.pairs).1;
      CutInside(cfg, l.pairs);
      if sp < |l.pairs| {
        StrandedExact(cfg, RightLeaf(l, sp));
      }
    }
  }

  lemma CutInside(cfg: Config, ps: seq<Pair>)
    requires |ps| > 0
    ensures 0 < LeafCuts(cfg, ps).1 <= |ps|
  {
  }

  // -- page bound

  /** The page of every leaf, and of every node of its chain, is within the block size. */
  ghost predicate LeafFits(cfg: Config, l: Leaves.Valid) {
    LeafSize(cfg, l.pairs) <= cfg.block && ChainFits(cfg.block, l.chain)
  }

  lemma NewChainFits(cfg: Config, ps: seq<Pair>)
    requires PairsFit(cfg, ps)
    ensures ChainFits(cfg.block, NewChain(cfg.block, Values(ps)))
  {
    var vs := Values(ps);
    if |vs| > 0 {
      var c := Fresh(vs);
      assert Overflow.Flat(c) == vs + [] == vs;
      assert forall i :: 0 <= i < |vs| ==> vs[i] == ps[i].value && PairSize(cfg, ps[i]) <= cfg.block / 2;
      PushDownFits(cfg.block, c);
    }
  }

  /** The left leaf: half a block of pairs, and at most one pair more. */
  lemma LeftFits(cfg: Config, l: Leaves.Valid)
    requires PairsFit(cfg, l.pairs) && Splits(cfg, l)
    ensures LeafSize(cfg, l.pairs[..LeafCuts(cfg, l.pairs).0]) <= cfg.block
  {
    var ps := l.pairs;
    assert ps[..0] == [];
    HereIs(cfg, ps, 0, HEADER + LINK);
    HereInside(cfg, l);
    var h := Here(cfg, ps, 0, HEADER + LINK);
    var s := KeyStart(ps, h);
    assert ps[..s + 1] == ps[..s] + [ps[s]];
    PairsSizeConcat(cfg, ps[..s], [ps[s]]);
    PairsSizeOne(cfg, ps[s]);
    PairsSizeGrows(cfg, ps, s, h);
  }

  /** After a split every leaf page and every overflow page is within the block size. */
  lemma {:induction false} SplitLeafFits(cfg: Config, l: Leaves.Valid)
    requires PairsFit(cfg, l.pairs) && ChainFits(cfg.block, l.chain)
    ensures forall i :: 0 <= i < |SplitLeaf(cfg, l)| ==>
              SplitLeaf(cfg, l)[i].child.Leaf? && LeafFits(cfg, SplitLeaf(cfg, l)[i].child.leaf)
    decreases |l.pairs|
  {
    hide NewChain, ChainFits, Here;
    if Splits(cfg, l) {
      HereInside(cfg, l);
      CutsStartKey(cfg, l.pairs);
      var (ov, sp) := LeafCuts(cfg, l.pairs);
      LeftFits(cfg, l);
      NewChainFits(cfg, l.pairs[ov..sp]);
      if sp < |l.pairs| {
        SplitLeafFits(cfg, RightLeaf(l, sp));
        var rest := SplitLeaf(cfg, RightLeaf(l, sp));
        var d := WithFirst(rest, Some(l.pairs[sp].key));
        assert forall i :: 0 <= i < |rest| ==> d[i].child == rest[i].child;
      }
    } else if |l.pairs| == 0 {
      assert PairsSize(cfg, l.pairs) == 0;
    }
  }

  /** Every branch of a split stores its leaf's item count. */
  lemma {:induction false} SplitLeafCounted(cfg: Config, l: Leaves.Valid)
    ensures forall i :: 0 <= i < |SplitLeaf(cfg, l)| ==>
              var b := SplitLeaf(cfg, l)[i]; b.loaded && b.child.Leaf? && b.count == ItemCount(b.child)
    decreases |l.pairs|
  {
    hide GuaranteedDeltas, Here, KeyEnd, LeafCuts, LeafSize, LeftLeaf, Sorted;
    if Splits(cfg, l) {
      HereInside(cfg, l);
      CutsStartKey(cfg, l.pairs);
      var (ov, sp) := LeafCuts(cfg, l.pairs);
      if sp < |l.pairs| {
        SplitLeafCounted(cfg, RightLeaf(l, sp));
      }
    }
  }

  // ---------------------------------------------------------------- internal nodes

  function SepSize(cfg: Config, b: Branch): nat {
    if b.minKey.None? then 0 else cfg.keySize(b.minKey.value)
  }

  /** The bytes of the branches, when the first of them is at position i: the first separator is not stored. */
  function BranchesSize(cfg: Config, bs: seq<Branch>, i: nat): nat
    requires i <= |bs|
    decreases |bs| - i
  {
    if i == |bs| then 0
    else (if i == 0 then 0 else SepSize(cfg, bs[i])) + BRANCH + BranchesSize(cfg, bs, i + 1)
  }

  /** The page of an internal node without its queued edits: header, edit count and branches. */
  function InternalSize(cfg: Config, bs: seq<Branch>): nat {
    HEADER + 4 + BranchesSize(cfg, bs, 0)
  }

  /** Type, key and value of every queued edit. */
  function QueueSize(cfg: Config, q: seq<Edit>): nat {
    if |q| == 0 then 0 else 1 + cfg.keySize(q[0].key) + |q[0].value| + QueueSize(cfg, q[1..])
  }

  /** The block without the area for the queue; a queue area larger than the block wraps around. */
  function BranchArea(cfg: Config): int {
    if cfg.queue <= cfg.block then cfg.block - cfg.queue else cfg.block - cfg.queue + 0x1_0000_0000
  }

  predicate InternalSplits(cfg: Config, bs: seq<Branch>) {
    BranchArea(cfg) != 0 && BranchArea(cfg) < InternalSize(cfg, bs)
  }

  /** The scan for the split index; its running size starts at the full size. */
  function SplitIndex(cfg: Config, bs: seq<Branch>, i: nat, size: nat): (r: nat)
    requires 1 <= i
    ensures r >= i && (i <= |bs| ==> r <= |bs|)
    decreases |bs| - i
  {
    if i >= |bs| then i
    else
      var size' := size + (if i != 1 then SepSize(cfg, bs[i - 1]) else 0) + BRANCH;
      if size' > (InternalSize(cfg, bs) + 1) / 2 then i else SplitIndex(cfg, bs, i + 1, size')
  }

  /** Since it starts at the full size, the scan always stops at the second branch. */
  lemma SplitIndexIsOne(cfg: Config, bs: seq<Branch>)
    ensures SplitIndex(cfg, bs, 1, InternalSize(cfg, bs)) == 1
  {
  }

  function NodeBranch(sep: Option<Key>, n: Node): Branch {
    Branch(sep, ItemCount(n), 0, true, n)
  }

  /** maybeSplitInternal. */
  function SplitInternal(cfg: Config, bs: seq<Branch>, q: seq<Edit>): (r: seq<Branch>)
    ensures |r| > 0
    decreases |bs|
  {
    if !InternalSplits(cfg, bs) then [NodeBranch(None, Internal(bs, q))]
    else
      var j := SplitIndex(cfg, bs, 1, InternalSize(cfg, bs));
      // a single branch that does not fit: excluded by the block size
      if j >= |bs| then [NodeBranch(None, Internal(bs, q))]
      else
        var cut := Cut(q, bs[j].minKey);
        [NodeBranch(None, Internal(bs[..j], q[..cut]))]
          + WithFirst(SplitInternal(cfg, bs[j..], q[cut..]), bs[j].minKey)
  }

  lemma SplitTurn(cfg: Config, bs: seq<Branch>, q: seq<Edit>)
    requires InternalSplits(cfg, bs) && |bs| > 1
    ensures var cut := Cut(q, bs[1].minKey);
            SplitInternal(cfg, bs, q)
            == [NodeBranch(None, Internal(bs[..1], q[..cut]))]
                 + WithFirst(SplitInternal(cfg, bs[1..], q[cut..]), bs[1].minKey)
  {
    SplitIndexIsOne(cfg, bs);
  }

  lemma Unsplit(cfg: Config, bs: seq<Branch>, q: seq<Edit>)
    requires !InternalSplits(cfg, bs) || |bs| <= 1
    ensures SplitInternal(cfg, bs, q) == [NodeBranch(None, Internal(bs, q))]
  {
    SplitIndexIsOne(cfg, bs);
  }

  lemma CutParts(q: seq<Edit>, m: Key, lo: Option<Key>, hi: Option<Key>)
    requires SortedEdits(q) && EditsWithin(q, lo, hi)
    ensures var c := Cut(q, Some(m));
            && SortedEdits(q[..c]) && SortedEdits(q[c..])
            && EditsWithin(q[..c], lo, Some(m)) && EditsWithin(q[c..], Some(m), hi)
  {
    var c := Cut(q, Some(m));
    forall j | c <= j < |q|
      ensures q[j].key >= m
    {
      CutSplits(q, m, j);
    }
  }

  lemma CutOn(q: seq<Edit>, m: Key, k: Key)
    requires SortedEdits(q)
    ensures var c := Cut(q, Some(m));
            && (k < m ==> EditsOn(q[..c], k) == EditsOn(q, k))
            && (k >= m ==> EditsOn(q[c..], k) == EditsOn(q, k))
  {
    var c := Cut(q, Some(m));
    assert q == q[..c] + q[c..];
    EditsOnConcat(q[..c], q[c..], k);
    if k < m {
      forall j | 0 <= j < |q[c..]|
        ensures q[c..][j].key != k
      {
        CutSplits(q, m, c + j);
      }
      EditsOnNone(q[c..], k);
    } else {
      EditsOnNone(q[..c], k);
    }
  }

  lemma CutChild(bs: seq<Branch>, j: nat, lo: Option<Key>, hi: Option<Key>, i: nat)
    requires OrderedList(bs, lo, hi) && 0 < j < |bs| && i < |bs|
    ensures i < j ==> Ordered(bs[..j][i].child, Lo(bs[..j], i, lo), Hi(bs[..j], i, bs[j].minKey))
    ensures i >= j ==> Ordered(bs[j..][i - j].child, Lo(bs[j..], i - j, bs[j].minKey), Hi(bs[j..], i - j, hi))
  {
    var m := bs[j].minKey;
    if i < j {
      assert Lo(bs[..j], i, lo) == Lo(bs, i, lo) && Hi(bs[..j], i, m) == Hi(bs, i, hi);
    } else {
      assert Lo(bs[j..], i - j, m) == Lo(bs, i, lo) && Hi(bs[j..], i - j, hi) == Hi(bs, i, hi);
    }
  }

  lemma CutLeft(bs: seq<Branch>, j: nat, lo: Option<Key>, hi: Option<Key>)
    requires OrderedList(bs, lo, hi) && 0 < j < |bs|
    ensures OrderedList(bs[..j], lo, bs[j].minKey)
  {
    hide Ordered, Separators;
    CutSeparators(bs, j, lo, hi);
    forall i | 0 <= i < |bs[..j]|
      ensures Ordered(bs[..j][i].child, Lo(bs[..j], i, lo), Hi(bs[..j], i, bs[j].minKey))
    {
      CutChild(bs, j, lo, hi, i);
    }
  }

  lemma CutRight(bs: seq<Branch>, j: nat, lo: Option<Key>, hi: Option<Key>)
    requires OrderedList(bs, lo, hi) && 0 < j < |bs|
    ensures OrderedList(bs[j..], bs[j].minKey, hi)
  {
    hide Ordered, Separators;
    CutSeparators(bs, j, lo, hi);
    forall i | 0 <= i < |bs[j..]|
      ensures Ordered(bs[j..][i].child, Lo(bs[j..], i, bs[j].minKey), Hi(bs[j..], i, hi))
    {
      CutChild(bs, j, lo, hi, j + i);
    }
  }

  /** Cutting an ordered list of branches at position j. */
  lemma CutList(bs: seq<Branch>, j: nat, lo: Option<Key>, hi: Option<Key>)
    requires OrderedList(bs, lo, hi) && 0 < j < |bs|
    ensures bs[j].minKey.Some? && Joinable(bs[..j], bs[j..], bs[j].minKey.value, lo, hi)
    ensures bs[..j] + bs[j..] == bs
  {
    hide Ordered, Separators, Below, Hi, StrictlyWithin;
    CutSeparators(bs, j, lo, hi);
    CutLeft(bs, j, lo, hi);
    CutRight(bs, j, lo, hi);
  }

  lemma CutSeparators(bs: seq<Branch>, j: nat, lo: Option<Key>, hi: Option<Key>)
    requires Separators(bs, lo, hi) && 0 < j < |bs|
    ensures bs[j].minKey.Some? && StrictlyWithin(lo, hi, bs[j].minKey.value)
    ensures Separators(bs[..j], lo, bs[j].minKey) && Separators(bs[j..], bs[j].minKey, hi)
    ensures bs[0].minKey.Some? ==> bs[0].minKey.value < bs[j].minKey.value
  {
    var a, d := bs[..j], bs[j..];
    assert forall i :: 0 < i < |a| ==> a[i] == bs[i] && bs[i].minKey.value < bs[j].minKey.value;
    assert forall i :: 0 < i < |d| ==> d[i] == bs[j + i] && bs[j].minKey.value < bs[j + i].minKey.value;
  }

  /** What one cut of an internal node means for a key. */
  lemma CutMeans(bs: seq<Branch>, q: seq<Edit>, lo: Option<Key>, hi: Option<Key>, k: Key)
    requires Ordered(Internal(bs, q), lo, hi) && |bs| > 1 && Within(lo, hi, k)
    ensures bs[1].minKey.Some?
    ensures var m := bs[1].minKey.value; var c := Cut(q, Some(m));
            var part := if k < m then Internal(bs[..1], q[..c]) else Internal(bs[1..], q[c..]);
            Pending(part, k) == Pending(Internal(bs, q), k) && Held(part, k) == Held(Internal(bs, q), k)
  {
    hide Separators;
    ListIsNode(bs, lo, hi);
    CutList(bs, 1, lo, hi);
    var m := bs[1].minKey.value;
    JoinRoute(bs[..1], bs[1..], m, lo, hi, k);
    CutOn(q, m, k);
  }

  lemma CutOrdered(bs: seq<Branch>, q: seq<Edit>, lo: Option<Key>, hi: Option<Key>)
    requires Ordered(Internal(bs, q), lo, hi) && |bs| > 1
    ensures bs[1].minKey.Some? && StrictlyWithin(lo, hi, bs[1].minKey.value)
    ensures var m := bs[1].minKey; var c := Cut(q, m);
            Ordered(Internal(bs[..1], q[..c]), lo, m) && Ordered(Internal(bs[1..], q[c..]), m, hi)
  {
    ListIsNode(bs, lo, hi);
    CutList(bs, 1, lo, hi);
    CutParts(q, bs[1].minKey.value, lo, hi);
  }

  /**
   * The parts are in order, each holds at least one branch, and the separator
   * of part j is that of branch j: every part but the last holds one branch.
   */
  ghost predicate Parts(bs: seq<Branch>, r: seq<Branch>, lo: Option<Key>, hi: Option<Key>) {
    && OrderedList(r, lo, hi) && |r| <= |bs|
    && r[0].minKey == None
    && (forall j :: 0 < j < |r| ==> r[j].minKey == bs[j].minKey)
    && (forall j :: 0 <= j < |r| ==> r[j].child.Internal? && |r[j].child.branches| > 0 && r[j].loaded
                                     && r[j].count == ItemCount(r[j].child))
  }

  lemma PartsJoin(b: Branch, rest: seq<Branch>, bs: seq<Branch>, lo: Option<Key>, hi: Option<Key>)
    requires |bs| > 1 && bs[1].minKey.Some? && StrictlyWithin(lo, hi, bs[1].minKey.value)
    requires b.minKey == None && Ordered(b.child, lo, bs[1].minKey) && Parts([b], [b], lo, bs[1].minKey)
    requires Parts(bs[1..], rest, bs[1].minKey, hi)
    requires forall j :: 1 < j < |bs| ==> bs[j].minKey.Some? && bs[1].minKey.value < bs[j].minKey.value
    ensures Joinable([b], WithFirst(rest, bs[1].minKey), bs[1].minKey.value, lo, hi)
    ensures Parts(bs, [b] + WithFirst(rest, bs[1].minKey), lo, hi)
  {
    hide Ordered, ItemCount;
    var m := bs[1].minKey;
    var d := WithFirst(rest, m);
    forall j | 0 < j < |rest|
      ensures m.value < rest[j].minKey.value
    {
      assert rest[j].minKey == bs[1..][j].minKey == bs[j + 1].minKey;
    }
    WithFirstOrdered(rest, m, m, hi);
    JoinOrdered([b], d, m.value, lo, hi);
    var c := [b] + d;
    forall j | 0 < j < |c|
      ensures c[j].minKey == bs[j].minKey
    {
      assert c[j] == d[j - 1];
      assert j > 1 ==> c[j] == rest[j - 1] && rest[j - 1].minKey == bs[1..][j - 1].minKey;
    }
  }

  lemma OnePart(n: Node, bs: seq<Branch>, lo: Option<Key>, hi: Option<Key>)
    requires n.Internal? && |n.branches| > 0 && Ordered(n, lo, hi) && |bs| > 0
    ensures Parts(bs, [NodeBranch(None, n)], lo, hi)
  {
  }

  /** One cut, seen from the list it starts. */
  lemma CutJoins(cfg: Config, bs: seq<Branch>, q: seq<Edit>, rest: seq<Branch>, lo: Option<Key>, hi: Option<Key>)
    requires Ordered(Internal(bs, q), lo, hi) && |bs| > 1
    requires Parts(bs[1..], rest, bs[1].minKey, hi)
    ensures var m := bs[1].minKey; var b := NodeBranch(None, Internal(bs[..1], q[..Cut(q, m)]));
            && m.Some? && Joinable([b], WithFirst(rest, m), m.value, lo, hi)
            && Parts(bs, [b] + WithFirst(rest, m), lo, hi)
            && OrderedList(WithFirst(rest, m), m, hi)
  {
    CutOrdered(bs, q, lo, hi);
    var b := NodeBranch(None, Internal(bs[..1], q[..Cut(q, bs[1].minKey)]));
    OnePart(b.child, [b], lo, bs[1].minKey);
    PartsJoin(b, rest, bs, lo, hi);
  }

  /** Splitting an internal node keeps the search order. */
  lemma {:induction false} SplitInternalOrdered(cfg: Config, bs: seq<Branch>, q: seq<Edit>, lo: Option<Key>,
                                                hi: Option<Key>)
    requires Ordered(Internal(bs, q), lo, hi)
    ensures Parts(bs, SplitInternal(cfg, bs, q), lo, hi)
    decreases |bs|
  {
    if InternalSplits(cfg, bs) && |bs| > 1 {
      SplitTurn(cfg, bs, q);
      CutOrdered(bs, q, lo, hi);
      var m := bs[1].minKey;
      SplitInternalOrdered(cfg, bs[1..], q[Cut(q, m)..], m, hi);
      CutJoins(cfg, bs, q, SplitInternal(cfg, bs[1..], q[Cut(q, m)..]), lo, hi);
    } else {
      Unsplit(cfg, bs, q);
      OnePart(Internal(bs, q), bs, lo, hi);
    }
  }

  ghost predicate SameMeaning(n: Node, m: Node, k: Key) {
    Pending(n, k) == Pending(m, k) && Held(n, k) == Held(m, k)
  }

  lemma OneMeans(n: Node, k: Key)
    ensures SameMeaning(AsNode([NodeBranch(None, n)]), n, k)
  {
    ListPends([NodeBranch(None, n)], k);
  }

  /** Splitting an internal node leaves every key's values and pending edits what they were. */
  lemma {:induction false} SplitInternalMeans(cfg: Config, bs: seq<Branch>, q: seq<Edit>, lo: Option<Key>,
                                              hi: Option<Key>, k: Key)
    requires Ordered(Internal(bs, q), lo, hi) && Within(lo, hi, k)
    ensures SameMeaning(AsNode(SplitInternal(cfg, bs, q)), Internal(bs, q), k)
    decreases |bs|
  {
    if InternalSplits(cfg, bs) && |bs| > 1 {
      SplitTurn(cfg, bs, q);
      CutOrdered(bs, q, lo, hi);
      CutMeans(bs, q, lo, hi, k);
      var m := bs[1].minKey;
      var c := Cut(q, m);
      var rest := SplitInternal(cfg, bs[1..], q[c..]);
      SplitInternalOrdered(cfg, bs[1..], q[c..], m, hi);
      CutJoins(cfg, bs, q, rest, lo, hi);
      var b := NodeBranch(None, Internal(bs[..1], q[..c]));
      JoinMeans([b], WithFirst(rest, m), m.value, lo, hi, k);
      if k < m.value {
        OneMeans(b.child, k);
      } else {
        SplitInternalMeans(cfg, bs[1..], q[c..], m, hi, k);
        WithFirstMeans(rest, m, m, hi, k);
      }
    } else {
      Unsplit(cfg, bs, q);
      OneMeans(Internal(bs, q), k);
    }
  }

  /** All branches of the parts, and all their edits, in order. */
  function PartBranches(r: seq<Branch>): seq<Branch> {
    if |r| == 0 then [] else (if r[0].child.Internal? then r[0].child.branches else []) + PartBranches(r[1..])
  }

  function PartEdits(r: seq<Branch>): seq<Edit> {
    if |r| == 0 then [] else (if r[0].child.Internal? then r[0].child.queue else []) + PartEdits(r[1..])
  }

  lemma PartsOf(n: Node, rest: seq<Branch>, sep: Option<Key>)
    requires n.Internal? && |rest| > 0
    ensures PartBranches([NodeBranch(None, n)] + WithFirst(rest, sep)) == n.branches + PartBranches(rest)
    ensures PartEdits([NodeBranch(None, n)] + WithFirst(rest, sep)) == n.queue + PartEdits(rest)
  {
    var d := WithFirst(rest, sep);
    assert ([NodeBranch(None, n)] + d)[1..] == d && d[1..] == rest[1..];
  }

  /** No branch and no edit is lost, added or moved by splitting. */
  lemma {:induction false} SplitInternalConserves(cfg: Config, bs: seq<Branch>, q: seq<Edit>)
    ensures PartBranches(SplitInternal(cfg, bs, q)) == bs
    ensures PartEdits(SplitInternal(cfg, bs, q)) == q
    decreases |bs|
  {
    if InternalSplits(cfg, bs) && |bs| > 1 {
      SplitTurn(cfg, bs, q);
      var c := Cut(q, bs[1].minKey);
      SplitInternalConserves(cfg, bs[1..], q[c..]);
      PartsOf(Internal(bs[..1], q[..c]), SplitInternal(cfg, bs[1..], q[c..]), bs[1].minKey);
      assert bs[..1] + bs[1..] == bs && q[..c] + q[c..] == q;
    } else {
      Unsplit(cfg, bs, q);
      assert SplitInternal(cfg, bs, q)[1..] == [];
    }
  }

  /** The page of an internal node, its queue included. */
  function InternalPage(cfg: Config, bs: seq<Branch>, q: seq<Edit>): nat {
    InternalSize(cfg, bs) + QueueSize(cfg, q)
  }

  lemma {:induction false} QueueSizeConcat(cfg: Config, a: seq<Edit>, b: seq<Edit>)
    ensures QueueSize(cfg, a + b) == QueueSize(cfg, a) + QueueSize(cfg, b)
  {
    if |a| == 0 {
      assert a + b == b;
    } else {
      assert (a + b)[1..] == a[1..] + b;
      QueueSizeConcat(cfg, a[1..], b);
    }
  }

  /** With room for one branch beside the queue area, every part fits its page, queue included. */
  lemma {:induction false} SplitInternalFits(cfg: Config, bs: seq<Branch>, q: seq<Edit>)
    requires cfg.queue + 34 <= cfg.block && QueueSize(cfg, q) <= cfg.queue
    ensures forall j :: 0 <= j < |SplitInternal(cfg, bs, q)| ==>
              var n := SplitInternal(cfg, bs, q)[j].child;
              n.Internal? && InternalPage(cfg, n.branches, n.queue) <= cfg.block && QueueSize(cfg, n.queue) <= cfg.queue
    decreases |bs|
  {
    if InternalSplits(cfg, bs) && |bs| > 1 {
      SplitTurn(cfg, bs, q);
      var c := Cut(q, bs[1].minKey);
      QueueSizeConcat(cfg, q[..c], q[c..]);
      assert q == q[..c] + q[c..];
      SplitInternalFits(cfg, bs[1..], q[c..]);
      assert BranchesSize(cfg, bs[..1], 0) == BRANCH + BranchesSize(cfg, bs[..1], 1);
    } else {
      SplitIndexIsOne(cfg, bs);
      if |bs| == 1 {
        assert BranchesSize(cfg, bs, 0) == BRANCH + BranchesSize(cfg, bs, 1);
      }
    }
  }
}
