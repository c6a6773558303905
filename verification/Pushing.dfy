/**
 * Pushing an overflow chain down: the code appends to the next node without
 * reading it.  When it gets through, and when it does not.
 */
module Pushing {
  import opened Types
  import opened Tree
  import opened Splitting
  import Leaves
  import Overflow

  // ---------------------------------------------------------------- the code as written

  /**
   * pushDownOverflowNodeSize as written; None where it follows the null pointer
   * of a node that was not read, and where it moves all values on for ever.
   */
  function PushedDown(block: nat, c: Overflow.Chain): Option<Overflow.Chain>
    decreases |Overflow.Flat(c)|
  {
    if c.End? || !TooBig(block, OverflowSize(c.values)) then Some(c)
    else
      var j := OverflowSplit(block, c.values, 0, HEADER + LINK);
      if j == 0 || (c.next.Node? && !c.next.loaded) then None
      else
        MovedShorter(c, j);
        var rest := PushedDown(block, Moved(c, j));
        if rest.None? then None
        else Some(Overflow.Node(c.count, c.id, c.loaded, c.values[..j], rest.value))
  }

  lemma {:induction false} PushedExact(block: nat, c: Overflow.Chain)
    ensures PushedDown(block, c) == if Movable(block, c) then Some(PushDown(block, c)) else None
    decreases |Overflow.Flat(c)|
  {
    hide OverflowSplit, Overflow.Flat;
    if c.Node? && TooBig(block, OverflowSize(c.values)) {
      var j := OverflowSplit(block, c.values, 0, HEADER + LINK);
      if j > 0 {
        MovedShorter(c, j);
        PushedExact(block, Moved(c, j));
      }
    }
  }

  // ---------------------------------------------------------------- when it gets through

  /** The nodes at the front of the chain that are in memory, as a chain of their own. */
  function InMemory(c: Overflow.Chain): (r: Overflow.Chain)
    ensures c.Node? && c.loaded ==> r.Node? && r.loaded && r.values == c.values && r.next == InMemory(c.next)
  {
    if c.Node? && c.loaded then
      var r := InMemory(c.next);
      Overflow.Node(|c.values| + Overflow.Count(r), c.id, true, c.values, r)
    else Overflow.End
  }

  /** What is stored behind them. */
  function StoredBehind(c: Overflow.Chain): Overflow.Chain {
    if c.Node? && c.loaded then StoredBehind(c.next) else c
  }

  function Nodes(c: Overflow.Chain): nat {
    if c.End? then 0 else 1 + Nodes(c.next)
  }

  lemma MovedInMemory(c: Overflow.Chain, j: nat)
    requires c.Node? && c.loaded && 0 < j <= |c.values| && (c.next.Node? ==> c.next.loaded)
    ensures var m := Moved(c, j);
            && m.Node? && m.loaded && InMemory(m) == Moved(InMemory(c), j) && StoredBehind(m) == StoredBehind(c)
            && (c.next.Node? ==> Nodes(InMemory(m)) == Nodes(InMemory(c)) - 1)
  {
    assert InMemory(c).values == c.values;
  }

  lemma StillNode(block: nat, c: Overflow.Chain)
    requires c.Node?
    ensures Nodes(PushDown(block, c)) >= 1
  {
  }

  /**
   * The code gets through a chain if and only if nothing is stored behind the
   * nodes in memory, or the values of these nodes need no further page.
   */
  lemma {:induction false} MovableExact(block: nat, c: Overflow.Chain)
    requires c.Node? && c.loaded && Overflow.Valid(c) && ValuesFit(block, c)
    ensures Movable(block, c) <==> StoredBehind(c).End? || Nodes(PushDown(block, InMemory(c))) == Nodes(InMemory(c))
    decreases |Overflow.Flat(c)|
  {
    hide OverflowSplit, Overflow.Flat, ValuesFit, OverflowSize;
    if TooBig(block, OverflowSize(c.values)) {
      SplitsInside(block, c);
      var j, p := OverflowSplit(block, c.values, 0, HEADER + LINK), InMemory(c);
      MovedIs(block, c, j);
      MovedFits(block, c, j);
      PushDownStep(block, p, j);
      if c.next.Node? && !c.next.loaded {
        StillNode(block, Moved(p, j));
      } else {
        MovedInMemory(c, j);
        MovableExact(block, Moved(c, j));
      }
    }
  }

  /** A new chain gets through if and only if every value fits a page. */
  lemma {:induction false} FreshExact(block: nat, c: Overflow.Chain)
    requires block > 0 && c.Node? && |c.values| > 0 && c.next.End?
    ensures Movable(block, c) <==> ValuesFit(block, c)
    decreases |Overflow.Flat(c)|
  {
    hide OverflowSplit, ValuesSize;
    assert Overflow.Flat(c) == c.values + [] == c.values;
    if !TooBig(block, OverflowSize(c.values)) {
      EachFits(block, c.values);
    } else {
      var j := OverflowSplit(block, c.values, 0, HEADER + LINK);
      FirstSplit(block, c.values);
      if j > 0 {
        MovedShorter(c, j);
        FreshExact(block, Moved(c, j));
        EachFits(block, c.values[..j]);
        FitsApart(block, c, j);
      } else {
        assert HEADER + LINK + |Overflow.Flat(c)[0]| > block;
      }
    }
  }

  lemma {:induction false} EachFits(block: nat, vs: seq<Value>)
    requires OverflowSize(vs) <= block
    ensures forall i :: 0 <= i < |vs| ==> HEADER + LINK + |vs[i]| <= block
  {
    if |vs| > 0 {
      EachFits(block, vs[1..]);
      assert forall i :: 1 <= i < |vs| ==> vs[i] == vs[1..][i - 1];
    }
  }

  lemma FirstSplit(block: nat, vs: seq<Value>)
    requires TooBig(block, OverflowSize(vs)) && |vs| > 0
    ensures var j := OverflowSplit(block, vs, 0, HEADER + LINK);
            && j < |vs|
            && (j == 0 ==> HEADER + LINK + |vs[0]| > block)
            && (j > 0 ==> OverflowSize(vs[..j]) <= block)
  {
    assert vs[..0] == [];
    OverflowSplitStops(block, vs, 0, HEADER + LINK);
    if HEADER + LINK + |vs[0]| <= block {
      OverflowSplitFits(block, vs, 0, HEADER + LINK);
    }
  }

  lemma FitsApart(block: nat, c: Overflow.Chain, j: nat)
    requires c.Node? && c.next.End? && j <= |c.values|
    requires forall i :: 0 <= i < j ==> HEADER + LINK + |c.values[..j][i]| <= block
    ensures ValuesFit(block, c) <==> ValuesFit(block, Moved(c, j))
  {
    var vs, m := c.values, Moved(c, j);
    assert Overflow.Flat(c) == vs + [] == vs;
    assert Overflow.Flat(m) == vs[j..] + [] == vs[j..];
    assert forall i :: 0 <= i < |vs| - j ==> vs[j..][i] == vs[j + i];
    if ValuesFit(block, m) {
      forall i | 0 <= i < |vs|
        ensures HEADER + LINK + |vs[i]| <= block
      {
        if i < j {
          assert vs[..j][i] == vs[i];
        } else {
          assert vs[j..][i - j] == vs[i];
        }
      }
    }
  }

  lemma NothingMoves(block: nat)
    requires block >= 60
    ensures Movable(block, Fresh([]))
  {
  }

  /** With pairs of at most half a block every new chain of a split gets through. */
  lemma {:induction false} NewChainsEnd(cfg: Config, ps: seq<Pair>)
    requires PairsFit(cfg, ps)
    ensures ChainsEnd(cfg, ps)
    decreases |ps|
  {
    hide Movable, PairsSize, LeafCuts;
    if TooBig(cfg.block, LeafSize(cfg, ps)) && |ps| > 0 {
      var (ov, sp) := LeafCuts(cfg, ps);
      var vs := Values(ps[ov..sp]);
      var c := Fresh(vs);
      assert Overflow.Flat(c) == vs + [] == vs;
      forall i | 0 <= i < |vs|
        ensures HEADER + LINK + |vs[i]| <= cfg.block
      {
        assert vs[i] == ps[ov + i].value && PairSize(cfg, ps[ov + i]) <= cfg.block / 2;
      }
      if |vs| > 0 {
        FreshExact(cfg.block, c);
      } else {
        NothingMoves(cfg.block);
      }
      if sp < |ps| {
        NewChainsEnd(cfg, ps[sp..]);
      }
    }
  }

  // ---------------------------------------------------------------- a chain on which it fails

  /** One pair, a stored chain of two nodes with one value each, and room for one in a page. */
  function TwoStored(k: Key, v: Value): Leaves.Valid {
    var c := Overflow.Node(2, 0, false, [v], Overflow.Node(1, 1, false, [v], Overflow.End));
    assert Overflow.Valid(c.next.next) && Overflow.Valid(c.next);
    Leaves.LeafData([Pair(k, [])], c)
  }

  /** One insert reads the first node and fills it; nothing has read the second one. */
  lemma PushCrashes(block: nat, k: Key, v: Value, g: bool)
    requires HEADER + LINK + |v| <= block < HEADER + LINK + 2 * |v|
    ensures var l := TwoStored(k, v); var r := Leaves.Edited(l, Edit(INSERT, k, v, g));
            && ChainFits(block, l.chain)
            && r.chain == Overflow.Node(3, 0, true, [v, v], l.chain.next)
            && PushedDown(block, r.chain) == None && !Movable(block, r.chain)
  {
    var l := TwoStored(k, v);
    var r := Leaves.Edited(l, Edit(INSERT, k, v, g));
    assert [v][1..] == [] && ValuesSize([v]) == |v|;
    assert ChainFits(block, l.chain.next);
    assert l.chain.values + [v] == [v, v];
    assert [v, v][1..] == [v] && ValuesSize([v, v]) == 2 * |v|;
    assert TooBig(block, OverflowSize(r.chain.values));
    PushedExact(block, r.chain);
  }

  /** One value that is larger than a page is moved on for ever. */
  lemma NeverEnds(block: nat, v: Value)
    requires 0 < block < HEADER + LINK + |v|
    ensures PushedDown(block, Fresh([v])) == None
  {
    hide PushedDown, Movable;
    PushedExact(block, Fresh([v]));
    FreshExact(block, Fresh([v]));
    assert Overflow.Flat(Fresh([v])) == [v] + [] == [v];
    assert Overflow.Flat(Fresh([v]))[0] == v;
  }
}
