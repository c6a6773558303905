/**
 * The tree as the code runs it: the root node, the ids of the blocks read, and
 * the blocks to put.  Every operation is tied to the function that specifies
 * it, reads each block at most once, and leaves unread parts in the store.
 */
module Trees {
  import opened Types
  import opened Multimap
  import opened Tree
  import opened Meaning
  import opened Lookup
  import opened Seeking
  import opened Ranking
  import opened BranchLists
  import opened Splitting
  import opened Merging
  import opened Flushing
  import opened Writing
  import opened Paging
  import opened Blocks
  import opened Storage
  import opened Collecting
  import opened LeafNodes
  import Leaves
  import Overflow

  class TreeImpl {
    const engine: Mem
    const cfg: Config
    const originID: Option<Id>
    const origin: Node
    var rootID: Option<Id>
    var root: Option<Node>
    var loadedIDs: seq<Id>
    var putBlocks: seq<PutBlock>

    /** A handle on a stored tree, or on a new one; `origin` is the tree the id stands for. */
    constructor (engine: Mem, cfg: Config, rootID: Option<Id>, origin: Node)
      requires engine.Fresh() && (rootID.Some? ==> Stored(engine.blocks, rootID.value, origin))
      ensures this.engine == engine && this.cfg == cfg && this.originID == rootID && this.origin == origin
      ensures root.None? && Valid()
    {
      this.engine, this.cfg, this.originID, this.origin := engine, cfg, rootID, origin;
      this.rootID, this.root, this.loadedIDs, this.putBlocks := rootID, None, [], [];
    }

    // ---------------------------------------------------------------- loading

    /** Reads a block and notes its id. */
    method Load(id: Id, ghost page: Page)
      requires id in engine.blocks && engine.blocks[id] == page
      modifies this`loadedIDs
      ensures loadedIDs == old(loadedIDs) + [id]
    {
      loadedIDs := loadedIDs + [id];
      var found := engine.Get(id);
      assert found == Some(page);
    }

    method Child(b: Branch) returns (c: Node)
      requires if b.loaded then Backed(engine.blocks, b.child) else Stored(engine.blocks, b.id, b.child)
      modifies this`loadedIDs
      ensures c == b.child && Backed(engine.blocks, c)
      ensures Fair(old(loadedIDs), BranchUnread(b), loadedIDs, Unread(c))
    {
      hide Backed, Beneath, Unread, Ids;
      c := b.child;
      if !b.loaded {
        Load(b.id, PageOf(c));
        StoredBacked(engine.blocks, c);
        UnreadBelow(c);
        FairRead(old(loadedIDs), b.id, BranchUnread(b), Unread(c));
      }
    }

    /** Reads the overflow node at the head of a chain. */
    method OverflowNode(c: Overflow.Chain)
      requires c.Node? && ChainBacked(engine.blocks, c)
      modifies this`loadedIDs
      ensures ChainBacked(engine.blocks, c.next)
      ensures Fair(old(loadedIDs), ChainUnread(c), loadedIDs, ChainUnread(c.next))
    {
      if !c.loaded {
        Load(c.id, OverflowPage(c.values, LinkTo(c.next)));
        LinksStoredBacked(engine.blocks, c.next);
        ChainUnreadBelow(c.next);
        FairRead(old(loadedIDs), c.id, ChainUnread(c), ChainUnread(c.next));
      }
    }

    // ---------------------------------------------------------------- overflow chains

    method OverflowInsert(c: Overflow.Chain, v: Value) returns (r: Overflow.Chain)
      requires c.Node? && ChainBacked(engine.blocks, c)
      modifies this`loadedIDs
      ensures r == Overflow.Append(c, v) && ChainBacked(engine.blocks, r)
      ensures Fair(old(loadedIDs), ChainUnread(c), loadedIDs, ChainUnread(r))
    {
      OverflowNode(c);
      var values := c.values + [v];
      r := Overflow.Node(|values| + Overflow.Count(c.next), c.id, true, values, c.next);
    }

    method OverflowPull(c: Overflow.Chain) returns (v: Value, r: Overflow.Chain)
      requires c.Node? && Overflow.Valid(c) && ChainBacked(engine.blocks, c)
      modifies this`loadedIDs
      ensures (v, r) == Overflow.Pull(c) && ChainBacked(engine.blocks, r)
      ensures Fair(old(loadedIDs), ChainUnread(c), loadedIDs, ChainUnread(r))
      decreases c
    {
      OverflowNode(c);
      if c.next.End? {
        v := Last(c.values);
        var values := c.values[..|c.values| - 1];
        r := if |values| == 0 then Overflow.End else Overflow.Node(|values|, c.id, true, values, Overflow.End);
        return;
      }
      ghost var l := loadedIDs;
      var rest;
      v, rest := OverflowPull(c.next);
      r := Overflow.Node(|c.values| + Overflow.Count(rest), c.id, true, c.values, rest);
      FairTrans(old(loadedIDs), ChainUnread(c), l, ChainUnread(c.next), loadedIDs, ChainUnread(r));
    }

    method PositionOf(values: seq<Value>, v: Value) returns (i: nat)
      ensures i == Overflow.IndexOf(values, v)
    {
      i := 0;
      assert values[0..] == values;
      while i < |values| && values[i] != v
        invariant i <= |values| && Overflow.IndexOf(values, v) == i + Overflow.IndexOf(values[i..], v)
      {
        assert values[i..][1..] == values[i + 1..];
        i := i + 1;
      }
    }

    /** Takes a value out of the first node of a chain that has been read; an emptied node is refilled. */
    method EraseValue(c: Overflow.Chain, i: nat) returns (r: Overflow.Chain)
      requires c.Node? && Overflow.Valid(c) && ChainBacked(engine.blocks, c.next)
      requires i < |c.values| && i == Overflow.IndexOf(c.values, c.values[i])
      modifies this`loadedIDs
      ensures r == Overflow.Remove(c, c.values[i]) && ChainBacked(engine.blocks, r)
      ensures Fair(old(loadedIDs), ChainUnread(c.next), loadedIDs, ChainUnread(r))
    {
      hide Overflow.Flat, Overflow.Pull, Overflow.IndexOf, ChainIds;
      var values := c.values[..i] + c.values[i + 1..];
      if |values| > 0 {
        r := Overflow.Node(|values| + Overflow.Count(c.next), c.id, true, values, c.next);
      } else if c.next.Node? {
        var w, rest := OverflowPull(c.next);
        r := Overflow.Node(1 + Overflow.Count(rest), c.id, true, [w], rest);
      } else {
        r := Overflow.End;
      }
    }

    /** What overflowRemove is meant to do. */
    method OverflowRemove(c: Overflow.Chain, v: Value) returns (r: Overflow.Chain)
      requires c.Node? && Overflow.Valid(c) && ChainBacked(engine.blocks, c)
      modifies this`loadedIDs
      ensures r == Overflow.Remove(c, v) && ChainBacked(engine.blocks, r)
      ensures Fair(old(loadedIDs), ChainUnread(c), loadedIDs, ChainUnread(r))
      decreases c
    {
      hide Overflow.Flat, Overflow.Pull, Overflow.IndexOf, ChainIds;
      OverflowNode(c);
      ghost var l := loadedIDs;
      var i := PositionOf(c.values, v);
      if i < |c.values| {
        r := EraseValue(c, i);
      } else {
        var next := c.next;
        if next.Node? {
          next := OverflowRemove(next, v);
        }
        r := Overflow.Node(|c.values| + Overflow.Count(next), c.id, true, c.values, next);
      }
      FairTrans(old(loadedIDs), ChainUnread(c), l, ChainUnread(c.next), loadedIDs, ChainUnread(r));
    }

    // ---------------------------------------------------------------- leaves

    method LeafInsert(leaf: LeafNode, key: Key, value: Value, upsert: bool)
      requires Leaves.Inv(leaf.Data()) && leaf.Exact() && ChainBacked(engine.blocks, leaf.overflow)
      modifies this`loadedIDs, leaf
      ensures leaf.Data() == Leaves.Insert(old(leaf.Data()), key, value, upsert)
      ensures leaf.Exact() && ChainBacked(engine.blocks, leaf.overflow)
      ensures Fair(old(loadedIDs), ChainUnread(old(leaf.overflow)), loadedIDs, ChainUnread(leaf.overflow))
    {
      hide Leaves.PullAll, Leaves.InsertPair, PairsSize, Sorted;
      var i := leaf.Find(key);
      if upsert && i < |leaf.pairs| {
        leaf.UpdateValue(i, value);
      } else if i == |leaf.pairs| && leaf.overflow.Node? {
        PullIn(leaf);
        leaf.Insert(Pair(key, value));
      } else if i == |leaf.pairs| - 1 && leaf.overflow.Node? {
        leaf.overflow := OverflowInsert(leaf.overflow, value);
      } else {
        leaf.Insert(Pair(key, value));
      }
    }

    /** The loop that brings a whole chain into the leaf. */
    method PullIn(leaf: LeafNode)
      requires leaf.overflow.Node? && |leaf.pairs| > 0
      requires Overflow.Valid(leaf.overflow) && leaf.Exact() && ChainBacked(engine.blocks, leaf.overflow)
      modifies this`loadedIDs, leaf
      ensures leaf.pairs == Leaves.PullAll(old(leaf.pairs), Last(old(leaf.pairs)).key, old(leaf.overflow))
      ensures leaf.overflow.End? && leaf.Exact()
      ensures Fair(old(loadedIDs), ChainUnread(old(leaf.overflow)), loadedIDs, ChainUnread(leaf.overflow))
    {
      hide Leaves.InsertPair, PairsSize;
      var oKey := Last(leaf.pairs).key;
      while leaf.overflow.Node?
        invariant Overflow.Valid(leaf.overflow) && leaf.Exact() && ChainBacked(engine.blocks, leaf.overflow)
        invariant Leaves.PullAll(leaf.pairs, oKey, leaf.overflow)
                  == Leaves.PullAll(old(leaf.pairs), oKey, old(leaf.overflow))
        invariant Fair(old(loadedIDs), ChainUnread(old(leaf.overflow)), loadedIDs, ChainUnread(leaf.overflow))
        decreases |Overflow.Flat(leaf.overflow)|
      {
        Overflow.PullTakesLast(leaf.overflow);
        ghost var l, u := loadedIDs, ChainUnread(leaf.overflow);
        var oValue, rest := OverflowPull(leaf.overflow);
        leaf.overflow := rest;
        leaf.Insert(Pair(oKey, oValue));
        FairTrans(old(loadedIDs), ChainUnread(old(leaf.overflow)), l, u, loadedIDs, ChainUnread(rest));
      }
    }

    method LeafRemove(leaf: LeafNode, key: Key, value: Option<Value>)
      requires Leaves.Inv(leaf.Data()) && leaf.Exact() && ChainBacked(engine.blocks, leaf.overflow)
      modifies this`loadedIDs, leaf
      ensures leaf.Data() == Leaves.Remove(old(leaf.Data()), key, value)
      ensures leaf.Exact() && ChainBacked(engine.blocks, leaf.overflow)
      ensures Fair(old(loadedIDs), ChainUnread(old(leaf.overflow)), loadedIDs, ChainUnread(leaf.overflow))
    {
      hide Leaves.FirstMatch, Leaves.InsertPair, PairsSize, Sorted;
      if |leaf.pairs| == 0 {
        NothingToRemove(leaf.Data(), key, value);
        return;
      }
      var at := EraseLocation(leaf, key, value);
      if at < |leaf.pairs| {
        leaf.Erase(at);
        if at == |leaf.pairs| && leaf.overflow.Node? {
          var ret, rest := OverflowPull(leaf.overflow);
          leaf.overflow := rest;
          leaf.Insert(Pair(key, ret));
        }
      } else if leaf.overflow.Node? && key == Last(leaf.pairs).key && value.Some? {
        leaf.overflow := OverflowRemove(leaf.overflow, value.value);
      }
    }

    /** The first pair of the key, and of the value if one is given; the end if there is none. */
    method EraseLocation(leaf: LeafNode, key: Key, value: Option<Value>) returns (at: nat)
      requires Sorted(leaf.pairs)
      ensures at == Leaves.FirstMatch(leaf.pairs, key, value, 0)
    {
      var begin, end := leaf.FindRange(key);
      OutsideRange(leaf.pairs, key, value);
      at := begin;
      while at < end
        invariant begin <= at && (begin <= end ==> at <= end)
        invariant begin <= end ==>
                    Leaves.FirstMatch(leaf.pairs, key, value, 0) == Leaves.FirstMatch(leaf.pairs, key, value, at)
      {
        if value.None? || leaf.pairs[at].value == value.value { return; }
        at := at + 1;
      }
      at := |leaf.pairs|;
    }

    /** One edit on a leaf. */
    method ApplyLeaf(l: Leaves.Valid, e: Edit) returns (r: Leaves.Valid)
      requires ChainBacked(engine.blocks, l.chain)
      modifies this`loadedIDs
      ensures r == Leaves.Edited(l, e) && ChainBacked(engine.blocks, r.chain)
      ensures Fair(old(loadedIDs), ChainUnread(l.chain), loadedIDs, ChainUnread(r.chain))
    {
      hide Leaves.Insert, Leaves.Remove, Leaves.Keeps;
      var leaf := new LeafNode(cfg, l.pairs, l.chain);
      match e.op {
        case INSERT => LeafInsert(leaf, e.key, e.value, false);
        case UPSERT => LeafInsert(leaf, e.key, e.value, true);
        case REMOVE_KEY => LeafRemove(leaf, e.key, None);
        case REMOVE_KV => LeafRemove(leaf, e.key, Some(e.value));
      }
      Leaves.ApplyKeeps(l, e);
      assert leaf.Data() == Leaves.Apply(l, e) == Leaves.Edited(l, e);
      r := leaf.Data();
    }

    // ---------------------------------------------------------------- edits

    /** apply: a deep edit goes straight to its leaf, a shallow one waits in the queue. */
    method Apply(n: Node, e: Edit, deep: bool) returns (r: Node)
      requires Backed(engine.blocks, n)
      modifies this`loadedIDs
      ensures r == Meaning.Apply(n, e, deep) && Backed(engine.blocks, r)
      ensures Charged(old(loadedIDs), n, loadedIDs, r)
      decreases n
    {
      hide Leaves.Keeps, Backed, Unread, Ids, Charged;
      match n {
        case Leaf(l) =>
          LeafParts(engine.blocks, l);
          var m := ApplyLeaf(l, e);
          r := Leaf(m);
          LeafParts(engine.blocks, m);
          LeafCharged(old(loadedIDs), l, loadedIDs, m);
        case Internal(bs, q) =>
          if deep && |bs| > 0 {
            var i := Route(bs, e.key);
            BranchParts(engine.blocks, n, i);
            var c := Child(bs[i]);
            ghost var l := loadedIDs;
            var d := Apply(c, e, deep);
            ChargedTrans(old(loadedIDs), bs[i], l, c, loadedIDs, d);
            r := Internal(bs[i := bs[i].(child := d, loaded := true, count := ItemCount(d))], q);
            ChildReplaced(engine.blocks, old(loadedIDs), loadedIDs, n, i, r.branches[i], q);
          } else {
            r := if deep then n else Internal(bs, q[..EditUpper(q, e.key)] + [e] + q[EditUpper(q, e.key)..]);
            QueueOnly(engine.blocks, loadedIDs, n, r);
          }
      }
    }

    /** travelDown: makes sure that the child is in memory. */
    method TravelDown(n: Node, i: nat) returns (r: Node)
      requires n.Internal? && i < |n.branches| && Backed(engine.blocks, n)
      modifies this`loadedIDs
      ensures r == Touch(n, i) && Backed(engine.blocks, r)
      ensures Charged(old(loadedIDs), n, loadedIDs, r)
    {
      hide Backed, Unread, Ids, Charged;
      BranchParts(engine.blocks, n, i);
      var c := Child(n.branches[i]);
      r := Internal(n.branches[i := n.branches[i].(loaded := true)], n.queue);
      ChildReplaced(engine.blocks, old(loadedIDs), loadedIDs, n, i, r.branches[i], n.queue);
    }

    /** applyPendingEdits: moves the edits pending for a child that is in memory into it. */
    method ApplyPendingEdits(n: Node, i: nat, lo: Option<Key>, hi: Option<Key>, deep: bool) returns (r: Node)
      requires n.Internal? && i < |n.branches| && n.branches[i].loaded && Backed(engine.blocks, n)
      modifies this`loadedIDs
      ensures r == Push(n, i, lo, hi, deep) && Backed(engine.blocks, r)
      ensures Charged(old(loadedIDs), n, loadedIDs, r)
    {
      hide Backed, Unread, Ids, Charged, Meaning.Apply;
      var bs, q := n.branches, n.queue;
      var a, b := PendFrom(q, ForkLo(bs, i, lo)), PendTo(q, ForkHi(bs, i, hi));
      BranchParts(engine.blocks, n, i);
      var c := bs[i].child;
      var j := a;
      NothingCharged(loadedIDs, bs[i]);
      while j < b
        invariant a <= j && (a <= b ==> j <= b)
        invariant Backed(engine.blocks, c)
        invariant ApplyMany(c, Between(q, j, b), deep) == ApplyMany(bs[i].child, Between(q, a, b), deep)
        invariant Fair(old(loadedIDs), BranchUnread(bs[i]), loadedIDs, Unread(c))
      {
        assert Between(q, j, b)[1..] == Between(q, j + 1, b);
        ghost var l, d := loadedIDs, c;
        c := Apply(c, q[j], deep);
        ChargedTrans(old(loadedIDs), bs[i], l, d, loadedIDs, c);
        j := j + 1;
      }
      r := Internal(bs[i := bs[i].(child := c, loaded := true, count := ItemCount(c))], Except(q, a, b));
      ChildReplaced(engine.blocks, old(loadedIDs), loadedIDs, n, i, r.branches[i], r.queue);
    }

    // ---------------------------------------------------------------- queries

    /** findRec. */
    method FindRec(n: Node, key: Option<Key>, lo: Option<Key>, hi: Option<Key>) returns (r: Node)
      requires Backed(engine.blocks, n)
      modifies this`loadedIDs
      ensures r == Find(n, key, lo, hi) && Backed(engine.blocks, r)
      ensures Charged(old(loadedIDs), n, loadedIDs, r)
      decreases Height(n)
    {
      hide Backed, Unread, Ids, Charged, Push, Route;
      if n.Leaf? || |n.branches| == 0 {
        SameCharged(loadedIDs, n);
        return n;
      }
      var i := if key.Some? then Route(n.branches, key.value) else 0;
      var t := TravelDown(n, i);
      ghost var l := loadedIDs;
      var p := ApplyPendingEdits(t, i, lo, hi, false);
      PushTouched(n, i, lo, hi, false);
      NodeTrans(old(loadedIDs), n, l, t, loadedIDs, p);
      PushedHeight(n, i, lo, hi, false);
      ChildHeight(p, i);
      PushLoads(n, i, lo, hi, false);
      BranchParts(engine.blocks, p, i);
      l := loadedIDs;
      var c := FindRec(p.branches[i].child, key, ForkLo(n.branches, i, lo), ForkHi(n.branches, i, hi));
      r := PutChild(p, i, c);
      ChildPut(engine.blocks, l, loadedIDs, p, i, c);
      NodeTrans(old(loadedIDs), n, l, p, loadedIDs, r);
    }

    /** isGuaranteed, and the sum of the deltas. */
    method SumDeltas(q: seq<Edit>) returns (guaranteed: bool, delta: int)
      ensures guaranteed == AllGuaranteed(q) && (guaranteed ==> delta == Deltas(q))
    {
      delta := 0;
      for j := 0 to |q|
        invariant AllGuaranteed(q[..j])
      {
        if !q[j].guaranteed {
          return false, 0;
        }
        assert q[..j + 1] == q[..j] + [q[j]];
      }
      guaranteed := true;
      assert q[..0] == [];
      for j := 0 to |q|
        invariant delta == Deltas(q[..j])
      {
        assert q[..j + 1] == q[..j] + [q[j]];
        DeltasConcat(q[..j], [q[j]]);
        assert [q[j]][1..] == [];
        delta := delta + q[j].Delta();
      }
      assert q[..|q|] == q;
    }

    /** pendingRankDelta, of a child that is in memory. */
    method PendingRankDelta(n: Node, i: nat, lo: Option<Key>, hi: Option<Key>) returns (r: Node, delta: int)
      requires n.Internal? && i < |n.branches| && Backed(engine.blocks, n)
      modifies this`loadedIDs
      ensures (r, delta) == RankDelta(n, i, lo, hi) && Backed(engine.blocks, r)
      ensures Charged(old(loadedIDs), n, loadedIDs, r)
    {
      hide Backed, Unread, Ids, Charged, Push, PendFrom, PendTo;
      var t := TravelDown(n, i);
      var guaranteed;
      guaranteed, delta := SumDeltas(PendingFor(n, i, lo, hi));
      r := t;
      if !guaranteed {
        ghost var l := loadedIDs;
        r := ApplyPendingEdits(t, i, lo, hi, true);
        NodeTrans(old(loadedIDs), n, l, t, loadedIDs, r);
        delta := 0;
      }
    }

    /** The overflow nodes of a leaf, walked until the value is reached. */
    method SeekInChain(c: Overflow.Chain, m: nat, depth: nat) returns (r: Overflow.Chain, spot: Spot)
      requires Overflow.Valid(c) && m < |Overflow.Flat(c)| && ChainBacked(engine.blocks, c)
      modifies this`loadedIDs
      ensures SeekChain(c, m, depth) == Some(spot) && spot.OnValue? && spot.depth >= depth
      ensures r == TouchChain(c, spot.depth - depth) && ChainBacked(engine.blocks, r)
      ensures Fair(old(loadedIDs), ChainUnread(c), loadedIDs, ChainUnread(r))
      decreases c
    {
      hide ChainIds, Overflow.Valid, Overflow.Flat, LinksStored, Fair;
      ChainHolds(c, m);
      OverflowNode(c);
      if m < |c.values| {
        spot := OnValue(depth, m);
        r := Overflow.Node(c.count, c.id, true, c.values, c.next);
        return;
      }
      ghost var l := loadedIDs;
      var next;
      next, spot := SeekInChain(c.next, m - |c.values|, depth + 1);
      r := Overflow.Node(c.count, c.id, true, c.values, next);
      FairTrans(old(loadedIDs), ChainUnread(c), l, ChainUnread(c.next), loadedIDs, ChainUnread(r));
    }

    /** The leaf case; past the last item the recursion of the code does not end, and is not modelled. */
    method SeekInLeaf(n: Node, m: int) returns (r: Node, place: Option<Place>)
      requires n.Leaf? && Backed(engine.blocks, n)
      modifies this`loadedIDs
      ensures (r, place) == Seek(n, m, None, None) && Backed(engine.blocks, r)
      ensures Charged(old(loadedIDs), n, loadedIDs, r)
    {
      hide Overflow.Flat, ChainIds, ChainUnread, ChainBacked, Overflow.Valid, SeekChain, TouchChain;
      var l := n.leaf;
      LeafChained(engine.blocks, l);
      Overflow.CountIsLength(l.chain);
      SeekMisses(l.chain, m - |l.pairs|, 0);
      if 0 <= m < |l.pairs| {
        r, place := n, Some(Place([], OnPair(m)));
      } else if |l.pairs| <= m < Leaves.Count(l) {
        var chain, spot := SeekInChain(l.chain, m - |l.pairs|, 0);
        r, place := Leaf(Leaves.LeafData(l.pairs, chain)), Some(Place([], spot));
      } else {
        r, place := n, None;
      }
    }

    /** seekRec. */
    method SeekRec(n: Node, m: int, lo: Option<Key>, hi: Option<Key>) returns (r: Node, place: Option<Place>)
      requires Backed(engine.blocks, n)
      modifies this`loadedIDs
      ensures (r, place) == Seek(n, m, lo, hi) && Backed(engine.blocks, r)
      ensures Charged(old(loadedIDs), n, loadedIDs, r)
      decreases Height(n), 1
    {
      hide Backed, Unread, Ids, Charged, Push, RankDelta;
      if n.Leaf? {
        r, place := SeekInLeaf(n, m);
        return;
      }
      var t, rest, i := n, m, 0;
      SameCharged(loadedIDs, n);
      while i < |t.branches|
        invariant t.Internal? && Height(t) == Height(n) && Backed(engine.blocks, t)
        invariant SeekFrom(t, i, rest, lo, hi) == SeekFrom(n, 0, m, lo, hi)
        invariant Charged(old(loadedIDs), n, loadedIDs, t)
        decreases |t.branches| - i
      {
        ghost var l, before := loadedIDs, t;
        var delta;
        t, delta := PendingRankDelta(t, i, lo, hi);
        NodeTrans(old(loadedIDs), n, l, before, loadedIDs, t);
        if rest < t.branches[i].count + delta {
          SeeksDown(before, i, rest, t, delta, lo, hi);
          DeltaLoads(before, i, lo, hi);
          l := loadedIDs;
          r, place := Descend(t, i, rest, lo, hi);
          NodeTrans(old(loadedIDs), n, l, t, loadedIDs, r);
          return;
        }
        SkipsOn(before, i, rest, t, delta, lo, hi);
        rest := rest - (t.branches[i].count + delta);
        i := i + 1;
      }
      r, place := t, None;
    }

    /** Into the branch found. */
    method Descend(t: Node, i: nat, m: int, lo: Option<Key>, hi: Option<Key>) returns (r: Node, place: Option<Place>)
      requires t.Internal? && i < |t.branches| && t.branches[i].loaded && Backed(engine.blocks, t)
      modifies this`loadedIDs
      ensures var p := Push(t, i, lo, hi, false);
              var s := Seek(p.branches[i].child, m, ForkLo(t.branches, i, lo), ForkHi(t.branches, i, hi));
              r == PutChild(p, i, s.0) && place == Under(i, s.1)
      ensures Backed(engine.blocks, r) && Charged(old(loadedIDs), t, loadedIDs, r)
      decreases Height(t), 0
    {
      hide Backed, Unread, Ids, Charged, Push, Seek;
      var p := ApplyPendingEdits(t, i, lo, hi, false);
      PushedHeight(t, i, lo, hi, false);
      ChildHeight(p, i);
      PushLoads(t, i, lo, hi, false);
      BranchParts(engine.blocks, p, i);
      ghost var l := loadedIDs;
      var c, s := SeekRec(p.branches[i].child, m, ForkLo(t.branches, i, lo), ForkHi(t.branches, i, hi));
      r, place := PutChild(p, i, c), Under(i, s);
      ChildPut(engine.blocks, l, loadedIDs, p, i, c);
      NodeTrans(old(loadedIDs), t, l, p, loadedIDs, r);
    }

    /** rank, along the path of an iterator. */
    method RankRec(n: Node, p: Place, lo: Option<Key>, hi: Option<Key>) returns (r: Node, rank: int)
      requires Backed(engine.blocks, n) && OnTree(n, p)
      modifies this`loadedIDs
      ensures rank == Rank(n, p, lo, hi) && r == Ranked(n, p, lo, hi) && Backed(engine.blocks, r)
      ensures Charged(old(loadedIDs), n, loadedIDs, r)
      decreases n
    {
      hide Backed, Unread, Ids, Charged, RankDelta;
      SameCharged(loadedIDs, n);
      if n.Leaf? {
        return n, match p.spot case OnPair(i) => i case OnValue(_, i) => i;
      }
      var i := p.path[0];
      var j := 0;
      r, rank := n, 0;
      while j < i
        invariant j <= i && r.Internal? && |r.branches| == |n.branches| && Backed(engine.blocks, r)
        invariant rank + RankFrom(r, j, i, lo, hi) == RankFrom(n, 0, i, lo, hi)
        invariant RankedFrom(r, j, i, lo, hi) == RankedFrom(n, 0, i, lo, hi)
        invariant r.branches[i] == n.branches[i]
        invariant Charged(old(loadedIDs), n, loadedIDs, r)
      {
        ghost var l, before := loadedIDs, r;
        var delta;
        rank := rank + r.branches[j].count;
        DeltaElsewhere(r, j, lo, hi, i);
        r, delta := PendingRankDelta(r, j, lo, hi);
        NodeTrans(old(loadedIDs), n, l, before, loadedIDs, r);
        rank := rank + delta;
        j := j + 1;
      }
      BranchParts(engine.blocks, r, i);
      ghost var l, before := loadedIDs, r;
      var c, below := RankRec(n.branches[i].child, Place(p.path[1..], p.spot),
                              ForkLo(n.branches, i, lo), ForkHi(n.branches, i, hi));
      rank := rank + below;
      r := PutChild(r, i, c);
      ChildPut(engine.blocks, l, loadedIDs, before, i, c);
      NodeTrans(old(loadedIDs), n, l, before, loadedIDs, r);
    }

    // ---------------------------------------------------------------- sizes and splits

    /** OverflowNodeSize: the size of the page, and the first value that exceeds the block. */
    method OverflowNodeSize(values: seq<Value>) returns (size: nat, splitIndex: nat)
      ensures size == OverflowSize(values)
      ensures TooBig(cfg.block, size) ==> splitIndex == OverflowSplit(cfg.block, values, 0, HEADER + LINK)
    {
      size := HEADER + LINK;
      assert values[..0] == [];
      for j := 0 to |values|
        invariant size == HEADER + LINK + ValuesSize(values[..j])
      {
        ValuesSizeNext(values, j);
        size := size + |values[j]|;
      }
      assert values[..|values|] == values;
      splitIndex := 0;
      if TooBig(cfg.block, size) {
        var splitSize: nat := HEADER + LINK;
        while splitIndex < |values|
          invariant splitIndex <= |values|
          invariant OverflowSplit(cfg.block, values, splitIndex, splitSize)
                    == OverflowSplit(cfg.block, values, 0, HEADER + LINK)
        {
          if splitSize + |values[splitIndex]| > cfg.block { return; }
          splitSize := splitSize + |values[splitIndex]|;
          splitIndex := splitIndex + 1;
        }
      }
    }

    /** The loop that appends the values from j on to the next node. */
    method MoveValues(c: Overflow.Chain, j: nat) returns (next: Overflow.Chain)
      requires c.Node? && j <= |c.values|
      ensures next == Moved(c, j)
    {
      next := if c.next.End? then Overflow.Node(0, 0, true, [], Overflow.End) else c.next;
      var moved := next.values;
      assert c.values[j..j] == [];
      for i := j to |c.values|
        invariant moved == next.values + c.values[j..i]
      {
        assert c.values[j..i + 1] == c.values[j..i] + [c.values[i]];
        moved := moved + [c.values[i]];
      }
      assert c.values[j..|c.values|] == c.values[j..];
      next := Overflow.Node(|moved| + Overflow.Count(next.next), next.id, true, moved, next.next);
    }

    /** pushDownOverflowNodeSize, on a chain whose nodes are in memory as far as values move. */
    method PushDownOverflowNodeSize(c: Overflow.Chain) returns (r: Overflow.Chain)
      requires c.Node? && c.loaded && Overflow.Valid(c) && Movable(cfg.block, c) && ChainBacked(engine.blocks, c)
      ensures r == PushDown(cfg.block, c) && ChainBacked(engine.blocks, r)
      ensures ChainUnread(r) == ChainUnread(c)
      decreases |Overflow.Flat(c)|
    {
      var size, j := OverflowNodeSize(c.values);
      if !TooBig(cfg.block, size) {
        return c;
      }
      var next := MoveValues(c, j);
      SplitsMove(cfg.block, c);
      MovedShorter(c, j);
      var rest := PushDownOverflowNodeSize(next);
      r := Overflow.Node(c.count, c.id, c.loaded, c.values[..j], rest);
    }

    /** LeafNodeSize: the size of the page, and where a leaf that is too big is cut. */
    method LeafNodeSize(pairs: seq<Pair>) returns (size: nat, overflowStart: nat, splitStart: nat)
      ensures size == LeafSize(cfg, pairs)
      ensures TooBig(cfg.block, size) && |pairs| > 0 ==> (overflowStart, splitStart) == LeafCuts(cfg, pairs)
    {
      hide PairsSize;
      size := HEADER + LINK + PairsSize(cfg, pairs);
      overflowStart, splitStart := 0, 0;
      if TooBig(cfg.block, size) && |pairs| > 0 {
        var here, startOfThisKey := FindHere(pairs);
        splitStart := here;
        while splitStart < |pairs| && pairs[splitStart].key == pairs[here].key
          invariant here <= splitStart <= |pairs|
          invariant KeyEnd(pairs, pairs[here].key, splitStart) == KeyEnd(pairs, pairs[here].key, here)
        {
          splitStart := splitStart + 1;
        }
        overflowStart := startOfThisKey + 1;
      }
    }

    /** The scan for half a block, which keeps track of where the current key starts. */
    method FindHere(pairs: seq<Pair>) returns (here: nat, startOfThisKey: nat)
      requires TooBig(cfg.block, LeafSize(cfg, pairs)) && |pairs| > 0
      ensures here == Here(cfg, pairs, 0, HEADER + LINK) && here < |pairs| && startOfThisKey == KeyStart(pairs, here)
    {
      hide PairsSize;
      var splitSize: nat := HEADER + LINK;
      here, startOfThisKey := 0, 0;
      HereBefore(cfg, pairs);
      while here < |pairs|
        invariant here <= |pairs| && startOfThisKey <= here
        invariant here > 0 ==> startOfThisKey < here && startOfThisKey == KeyStart(pairs, here - 1)
        invariant Here(cfg, pairs, here, splitSize) == Here(cfg, pairs, 0, HEADER + LINK)
      {
        if here > 0 && pairs[here].key != pairs[startOfThisKey].key {
          startOfThisKey := here;
        }
        if splitSize + PairSize(cfg, pairs[here]) > Piece(cfg) { return; }
        splitSize := splitSize + PairSize(cfg, pairs[here]);
        here := here + 1;
      }
    }

    /** The left part of a split: pairs up to one of the key, and a new overflow node for the others, pushed down. */
    method LeftPart(l: Leaves.Valid, overflowStart: nat, splitStart: nat) returns (left: Leaves.Valid)
      requires 0 < overflowStart <= splitStart <= |l.pairs|
      requires overflowStart > 1 ==> l.pairs[overflowStart - 2].key != l.pairs[overflowStart - 1].key
      requires Movable(cfg.block, Fresh(Splitting.Values(l.pairs[overflowStart..splitStart])))
      ensures left == LeftLeaf(cfg.block, l, overflowStart, splitStart)
    {
      hide Movable, PushDown;
      var values := Splitting.Values(l.pairs[overflowStart..splitStart]);
      assert Sorted(l.pairs[..overflowStart]);
      left := Leaves.LeafData(l.pairs[..overflowStart], Overflow.End);
      if |values| > 0 {
        PushDownKeeps(cfg.block, Fresh(values));
        var overflow := PushDownOverflowNodeSize(Fresh(values));
        left := Leaves.LeafData(l.pairs[..overflowStart], overflow);
      }
    }

    /** maybeSplitLeaf. */
    method MaybeSplitLeaf(l: Leaves.Valid) returns (split: seq<Branch>)
      requires NotStranded(cfg, l) && ChainsEnd(cfg, l.pairs) && ChainBacked(engine.blocks, l.chain)
      ensures split == SplitLeaf(cfg, l) && ListBacked(engine.blocks, split)
      ensures ListUnread(split) == ChainUnread(l.chain)
      decreases |l.pairs|
    {
      hide PairsSize, LeafCuts, NewChain, Sorted, ListBacked, Backed, ListUnread;
      var size, overflowStart, splitStart := LeafNodeSize(l.pairs);
      if !(TooBig(cfg.block, size) && |l.pairs| > 0) {
        split := [LeafBranch(None, l)];
        LeafListed(engine.blocks, None, l);
        return;
      }
      HereInside(cfg, l);
      CutsStartKey(cfg, l.pairs);
      var left := LeftPart(l, overflowStart, splitStart);
      NewChainUnread(engine.blocks, cfg.block, Splitting.Values(l.pairs[overflowStart..splitStart]));
      LeafListed(engine.blocks, None, left);
      if splitStart == |l.pairs| {
        split := [LeafBranch(None, left)];
        return;
      }
      var right := RightLeaf(l, splitStart);
      var rest := MaybeSplitLeaf(right);
      FirstListed(engine.blocks, rest, Some(l.pairs[splitStart].key));
      rest := WithFirst(rest, Some(l.pairs[splitStart].key));
      split := [LeafBranch(None, left)] + rest;
      JoinListed(engine.blocks, [LeafBranch(None, left)], rest);
    }

    /** InternalNodeSize: the size without the queue, the size of the queue, and the split index. */
    method InternalNodeSize(bs: seq<Branch>, q: seq<Edit>) returns (size: nat, queueSize: nat, splitIndex: nat)
      ensures size == InternalSize(cfg, bs) && queueSize == QueueSize(cfg, q)
      ensures InternalSplits(cfg, bs) ==> splitIndex == SplitIndex(cfg, bs, 1, InternalSize(cfg, bs))
    {
      hide SplitIndex;
      size := HEADER + 4;
      var i := 0;
      while i < |bs|
        invariant i <= |bs| && size + BranchesSize(cfg, bs, i) == InternalSize(cfg, bs)
      {
        if i > 0 { size := size + SepSize(cfg, bs[i]); }
        size := size + BRANCH;
        i := i + 1;
      }
      queueSize := 0;
      assert q[0..] == q;
      var j := 0;
      while j < |q|
        invariant j <= |q| && queueSize + QueueSize(cfg, q[j..]) == QueueSize(cfg, q)
      {
        assert q[j..][1..] == q[j + 1..];
        queueSize := queueSize + 1;
        queueSize := queueSize + cfg.keySize(q[j].key) + |q[j].value|;
        j := j + 1;
      }
      splitIndex := 1;
      if InternalSplits(cfg, bs) {
        var splitSize: nat := size;
        if |bs| <= 1 { SplitScan(cfg, bs, splitIndex, splitSize); }
        while splitIndex < |bs|
          invariant 1 <= splitIndex && SplitIndex(cfg, bs, splitIndex, splitSize) == SplitIndex(cfg, bs, 1, size)
          invariant splitIndex >= |bs| ==> SplitIndex(cfg, bs, splitIndex, splitSize) == splitIndex
        {
          SplitScan(cfg, bs, splitIndex, splitSize);
          if splitIndex != 1 { splitSize := splitSize + SepSize(cfg, bs[splitIndex - 1]); }
          splitSize := splitSize + BRANCH;
          if splitSize > (size + 1) / 2 { return; }
          splitIndex := splitIndex + 1;
          SplitScan(cfg, bs, splitIndex, splitSize);
        }
      }
    }

    /** maybeSplitInternal. */
    method MaybeSplitInternal(bs: seq<Branch>, q: seq<Edit>) returns (split: seq<Branch>)
      requires ListBacked(engine.blocks, bs)
      ensures split == SplitInternal(cfg, bs, q) && ListBacked(engine.blocks, split)
      ensures ListUnread(split) == ListUnread(bs)
      decreases |bs|
    {
      hide BranchesSize, QueueSize, SplitIndex, ListBacked, Backed, ListUnread, ItemCount;
      var size, queueSize, j := InternalNodeSize(bs, q);
      if !InternalSplits(cfg, bs) || j >= |bs| {
        split := [NodeBranch(None, Internal(bs, q))];
        InternalListed(engine.blocks, None, bs, q);
        return;
      }
      var cut := Cut(q, bs[j].minKey);
      var left := NodeBranch(None, Internal(bs[..j], q[..cut]));
      PartListed(engine.blocks, bs, j);
      InternalListed(engine.blocks, None, bs[..j], q[..cut]);
      var rest := MaybeSplitInternal(bs[j..], q[cut..]);
      FirstListed(engine.blocks, rest, bs[j].minKey);
      rest := WithFirst(rest, bs[j].minKey);
      split := [left] + rest;
      JoinListed(engine.blocks, [left], rest);
    }

    // ---------------------------------------------------------------- flushing

    /** findBlocksToFetch: the blocks of the children that edits are routed to and that are not in memory. */
    method FindBlocksToFetch(bs: seq<Branch>, q: seq<Edit>) returns (ids: seq<Id>)
      requires |bs| > 0
      ensures forall x :: x in ids <==> exists j :: 0 <= j < |q| && Fetches(bs, q[j], x)
    {
      ids := [];
      for j := 0 to |q|
        invariant forall x :: x in ids <==> exists y :: 0 <= y < j && Fetches(bs, q[y], x)
      {
        var i := Route(bs, q[j].key);
        ghost var before := ids;
        if !bs[i].loaded && bs[i].id !in ids {
          ids := ids + [bs[i].id];
        }
        forall x
          ensures x in ids <==> exists y :: 0 <= y < j + 1 && Fetches(bs, q[y], x)
        {
          assert x in ids <==> x in before || Fetches(bs, q[j], x);
        }
      }
    }

    /** loadBlocksToEdit: afterwards every child that receives edits is in memory. */
    method LoadBlocksToEdit(n: Node, ghost lo: Option<Key>, ghost hi: Option<Key>) returns (r: Node)
      requires n.Internal? && Ordered(n, lo, hi) && DistinctIds(n) && Backed(engine.blocks, n)
      modifies this`loadedIDs
      ensures r == Internal(LoadedFor(n.branches, n.queue), n.queue) && Backed(engine.blocks, r)
      ensures Charged(old(loadedIDs), n, loadedIDs, r)
    {
      hide Ordered, Backed, Unread, Ids, Charged, Range, Route, Fetches, DistinctIds;
      var bs, q := n.branches, n.queue;
      OrderedParts(n, lo, hi);
      var ids := FindBlocksToFetch(bs, q);
      FetchedAll(engine.blocks, n, lo, hi, ids);
      var pages := engine.GetAll(ids);
      r := n;
      SameCharged(loadedIDs, n);
      for i := 0 to |bs|
        invariant r.Internal? && |r.branches| == |bs| && r.queue == q && Backed(engine.blocks, r)
        invariant forall j :: 0 <= j < i ==> r.branches[j] == LoadedFor(bs, q)[j]
        invariant forall j :: i <= j < |bs| ==> r.branches[j] == bs[j]
        invariant Charged(old(loadedIDs), n, loadedIDs, r)
      {
        FetchedExact(n, lo, hi, ids, i);
        ghost var l, before := loadedIDs, r;
        if bs[i].id in pages.value {
          BranchParts(engine.blocks, r, i);
          loadedIDs := loadedIDs + [bs[i].id];
          r := Internal(r.branches[i := bs[i].(loaded := true)], q);
          BranchRead(engine.blocks, l, before, i);
          NodeTrans(old(loadedIDs), n, l, before, loadedIDs, r);
        }
      }
      assert r.branches == LoadedFor(bs, q);
    }

    /** applyEditsToBranch, with the edits that belong to the branch. */
    method ApplyEditsToBranch(b: Branch, es: seq<Edit>) returns (c: Node)
      requires |es| > 0 ==> b.loaded
      requires BranchBacked(engine.blocks, b) && SortedEdits(es)
      requires b.child.Leaf? ==> MergeRuns(b.child.leaf, es)
      modifies this`loadedIDs
      ensures c == ApplyEdits(b.child, es) && BranchBacked(engine.blocks, b.(child := c))
      ensures Fair(old(loadedIDs), BranchUnread(b), loadedIDs, BranchUnread(b.(child := c)))
    {
      hide Ids, Charged, Meaning.Apply, SortedEdits, MergeRuns;
      c := b.child;
      if |es| == 0 {
        assert b.(child := c) == b;
        return;
      }
      match b.child {
        case Leaf(l) =>
          var leaf := new LeafNode(cfg, l.pairs, l.chain);
          leaf.ApplyAll(es);
          MergedLeaf(l, es);
          c := Leaf(leaf.Data());
          LeafParts(engine.blocks, l);
          LeafParts(engine.blocks, c.leaf);
        case Internal(_, _) =>
          NothingCharged(loadedIDs, b);
          c := ApplyMixed(b, es);
      }
    }

    /** Guaranteed edits are queued in the child, the others go to the leaves. */
    method ApplyMixed(b: Branch, es: seq<Edit>) returns (c: Node)
      requires b.loaded && Backed(engine.blocks, b.child)
      modifies this`loadedIDs
      ensures c == MixMany(b.child, es) && Backed(engine.blocks, c)
      ensures Fair(old(loadedIDs), BranchUnread(b), loadedIDs, Unread(c))
    {
      hide Backed, Unread, Ids, Charged, Meaning.Apply;
      c := b.child;
      NothingCharged(loadedIDs, b);
      assert es[0..] == es;
      var j := 0;
      while j < |es|
        invariant j <= |es| && Backed(engine.blocks, c)
        invariant MixMany(c, es[j..]) == MixMany(b.child, es)
        invariant Fair(old(loadedIDs), BranchUnread(b), loadedIDs, Unread(c))
      {
        assert es[j..][1..] == es[j + 1..];
        ghost var l, before := loadedIDs, c;
        c := Apply(c, es[j], !es[j].guaranteed);
        ChargedTrans(old(loadedIDs), b, l, before, loadedIDs, c);
        j := j + 1;
      }
    }

    /** maybeApplyEdits. */
    method MaybeApplyEdits(n: Node, ghost lo: Option<Key>, ghost hi: Option<Key>)
      returns (cs: seq<Branch>, p: seq<Edit>)
      requires n.Internal? && Ordered(n, lo, hi) && DistinctIds(n) && Backed(engine.blocks, n)
      requires QueueSize(cfg, n.queue) > cfg.queue ==> AllMergeRuns(n.branches, n.queue)
      modifies this`loadedIDs
      ensures (cs, p) == MaybeApply(cfg, n.branches, n.queue)
      ensures ListBacked(engine.blocks, cs) && Fair(old(loadedIDs), Unread(n), loadedIDs, ListUnread(cs))
    {
      hide Ordered, Backed, Unread, Ids, Charged, Range, ApplyEdits, MergeRuns, DistinctIds, QueueSize;
      hide ListBacked, Fair;
      var bs, q := n.branches, n.queue;
      var size, queueSize, _ := InternalNodeSize(bs, q);
      ListIsBacked(engine.blocks, bs, q);
      if queueSize <= cfg.queue {
        cs, p := bs, q;
        FairSame(loadedIDs, Unread(n), Unread(n));
        return;
      }
      OrderedParts(n, lo, hi);
      var r := LoadBlocksToEdit(n, lo, hi);
      var i := 0;
      while i < |bs|
        invariant i <= |bs| && r.Internal? && |r.branches| == |bs| && Backed(engine.blocks, r)
        invariant forall j :: 0 <= j < i ==> r.branches[j] == ApplyBranch(bs, q, j)
        invariant forall j :: i <= j < |bs| ==> r.branches[j] == LoadedFor(bs, q)[j]
        invariant Charged(old(loadedIDs), n, loadedIDs, r)
      {
        ghost var l, before := loadedIDs, r;
        var b := r.branches[i];
        BranchParts(engine.blocks, r, i);
        BatchRuns(bs, q, i);
        RangeSorted(bs, q, i);
        assert |Range(bs, q, i)| > 0 ==> b.loaded;
        var c := ApplyEditsToBranch(b, Range(bs, q, i));
        r := Internal(r.branches[i := b.(child := c)], q);
        BranchPut(engine.blocks, l, loadedIDs, before, i, b.(child := c), q);
        NodeTrans(old(loadedIDs), n, l, before, loadedIDs, r);
        i := i + 1;
      }
      cs, p := r.branches, [];
      assert cs == ApplyBranches(bs, q);
      ListIsBacked(engine.blocks, cs, r.queue);
      ChargedIs(old(loadedIDs), n, loadedIDs, r);
    }

    /** updateBranch: what takes the place of a branch whose child was flushed. */
    method UpdateBranch(branches: seq<Branch>, i: nat, split: seq<Branch>) returns (r: seq<Branch>, next: nat)
      requires i < |branches| && |split| > 0
      ensures r == branches[..i] + Update(branches[i], split) + branches[i + 1..]
      ensures next == i + |Update(branches[i], split)|
    {
      var b := branches[i].(child := split[0].child, count := split[0].count);
      if |split| == 1 && b.count == 0 {
        r, next := branches[..i] + branches[i + 1..], i;
        assert r == branches[..i] + [] + branches[i + 1..];
        return;
      }
      r := branches[..i] + [b] + split[1..] + branches[i + 1..];
      assert r == branches[..i] + ([b] + split[1..]) + branches[i + 1..];
      next := i + 1 + |split| - 1;
    }

    /** flushAndSplitRec. */
    method FlushAndSplitRec(n: Node, ghost lo: Option<Key>, ghost hi: Option<Key>) returns (split: seq<Branch>)
      requires Flushable(cfg, n, lo, hi) && Backed(engine.blocks, n)
      modifies this`loadedIDs
      ensures split == Flush(cfg, n) && ListBacked(engine.blocks, split)
      ensures Fair(old(loadedIDs), Unread(n), loadedIDs, ListUnread(split))
      decreases Height(n), 1
    {
      hide Ordered, Parsed, Backed, Unread, Ids, Charged, Fair, ListBacked, MaybeApply, SplitLeaf, SplitInternal,
        FlushFrom;
      match n {
        case Leaf(l) =>
          split := FlushLeaf(l, lo, hi);
        case Internal(bs, q) =>
          FlushableParts(cfg, n, lo, hi);
          var cs, p := MaybeApplyEdits(n, lo, hi);
          ghost var l := loadedIDs;
          var f := FlushChildren(n, cs, lo, hi);
          FairTrans(old(loadedIDs), Unread(n), l, ListUnread(cs), loadedIDs, ListUnread(f));
          split := MaybeSplitInternal(f, p);
      }
    }

    method FlushLeaf(l: Leaves.Valid, ghost lo: Option<Key>, ghost hi: Option<Key>) returns (split: seq<Branch>)
      requires Flushable(cfg, Leaf(l), lo, hi) && Backed(engine.blocks, Leaf(l))
      ensures split == Flush(cfg, Leaf(l)) && ListBacked(engine.blocks, split)
      ensures Fair(loadedIDs, Unread(Leaf(l)), loadedIDs, ListUnread(split))
    {
      hide SplitLeaf, ListBacked, Ordered;
      LeafParts(engine.blocks, l);
      var p := l;
      if l.chain.Node? && l.chain.loaded {
        var chain := PushDownOverflowNodeSize(l.chain);
        PushDownKeeps(cfg.block, l.chain);
        p := Leaves.LeafData(l.pairs, chain);
      }
      assert p == PushedLeaf(cfg, l);
      split := MaybeSplitLeaf(p);
    }

    /** The loop over the branches: each original loaded branch is flushed once, inserted ones are skipped. */
    method FlushChildren(n: Node, cs: seq<Branch>, ghost lo: Option<Key>, ghost hi: Option<Key>)
      returns (f: seq<Branch>)
      requires n.Internal? && cs == MaybeApply(cfg, n.branches, n.queue).0
      requires Flushable(cfg, n, lo, hi) && ListBacked(engine.blocks, cs)
      modifies this`loadedIDs
      ensures f == FlushFrom(cfg, cs, 0) && ListBacked(engine.blocks, f)
      ensures Fair(old(loadedIDs), ListUnread(cs), loadedIDs, ListUnread(f))
      decreases Height(n), 0
    {
      hide Flushable, Backed, Unread, Ids, Charged, Fair, ListBacked, MaybeApply, FlushFrom, Flush, Update, Ordered;
      f := cs;
      var i: nat := 0;
      ghost var k: nat := 0;
      FairSame(loadedIDs, ListUnread(cs), ListUnread(cs));
      assert f[..0] == [];
      while i < |f|
        invariant i <= |f| && k <= |cs| && f[i..] == cs[k..]
        invariant f[..i] + FlushFrom(cfg, cs, k) == FlushFrom(cfg, cs, 0)
        invariant ListBacked(engine.blocks, f)
        invariant Fair(old(loadedIDs), ListUnread(cs), loadedIDs, ListUnread(f))
        decreases |cs| - k
      {
        assert k < |cs| && f[i] == f[i..][0] == cs[k];
        FlushTurn(cfg, cs, k);
        ghost var l, before, i0 := loadedIDs, f, i;
        BranchListed(engine.blocks, f, i);
        assert before[i0 + 1..] == before[i0..][1..] == cs[k..][1..] == cs[k + 1..];
        if f[i].loaded {
          ChildFlushable(cfg, n, k, lo, hi);
          var split := FlushAndSplitRec(f[i].child, Lo(cs, k, lo), Hi(cs, k, hi));
          FlushLoaded(cfg, f[i].child);
          SegmentPut(engine.blocks, l, loadedIDs, f, i, split);
          f, i := UpdateBranch(f, i, split);
          Replaced(before, i0, Update(cs[k], split), f, i);
          Regroup(before[..i0], Update(cs[k], split), FlushFrom(cfg, cs, k + 1));
          FairTrans(old(loadedIDs), ListUnread(cs), l, ListUnread(before), loadedIDs, ListUnread(f));
        } else {
          i := i + 1;
          assert f[..i] == before[..i0] + [cs[k]];
          Regroup(before[..i0], [cs[k]], FlushFrom(cfg, cs, k + 1));
        }
        k := k + 1;
      }
      FlushEnd(cfg, cs);
      assert f[i..] == [] && k == |cs| && f[..i] == f;
    }

    // ---------------------------------------------------------------- collecting blocks

    method Give(page: Page) returns (id: Id)
      modifies this`putBlocks, engine`counter
      ensures id == old(engine.counter) && engine.counter == id + 1
      ensures putBlocks == old(putBlocks) + [PutBlock(id, page, false)]
    {
      id := engine.NewId();
      putBlocks := putBlocks + [PutBlock(id, page, false)];
    }

    method CollectChain(c: Overflow.Chain) returns (r: Overflow.Chain)
      modifies this`putBlocks, engine`counter
      ensures (r, engine.counter) == CollectedChain(c, old(engine.counter))
      ensures putBlocks == old(putBlocks) + ChainPuts(c, old(engine.counter))
      decreases c
    {
      if c.End? || !c.loaded {
        return c;
      }
      var next := CollectChain(c.next);
      Regroup(old(putBlocks), ChainPuts(c.next, old(engine.counter)),
              [PutBlock(engine.counter, OverflowPage(c.values, LinkTo(next)), false)]);
      var id := Give(OverflowPage(c.values, LinkTo(next)));
      r := Overflow.Node(c.count, id, true, c.values, next);
    }

    /** collectBlocksRec. */
    method CollectBlocksRec(n: Node) returns (r: Node, id: Id)
      modifies this`putBlocks, engine`counter
      ensures (r, engine.counter) == Collected(n, old(engine.counter)) && id == engine.counter - 1
      ensures putBlocks == old(putBlocks) + Puts(n, old(engine.counter))
      decreases n, 1
    {
      hide PageOf, CollectedChain, CollectedList, ChainPuts, ListPuts;
      match n {
        case Leaf(l) =>
          var chain := CollectChain(l.chain);
          r := Leaf(Leaves.LeafData(l.pairs, chain));
          Regroup(old(putBlocks), ChainPuts(l.chain, old(engine.counter)),
            [PutBlock(engine.counter, PageOf(r), false)]);
        case Internal(bs, q) =>
          var cs := CollectBranches(n);
          r := Internal(cs, q);
          Regroup(old(putBlocks), ListPuts(bs, old(engine.counter)), [PutBlock(engine.counter, PageOf(r), false)]);
      }
      id := Give(PageOf(r));
    }

    method CollectBranches(n: Node) returns (cs: seq<Branch>)
      requires n.Internal?
      modifies this`putBlocks, engine`counter
      ensures (cs, engine.counter) == CollectedList(n.branches, old(engine.counter))
      ensures putBlocks == old(putBlocks) + ListPuts(n.branches, old(engine.counter))
      decreases n, 0
    {
      hide Collected, CollectedList, Puts, ListPuts;
      var bs := n.branches;
      cs := [];
      var i: nat := 0;
      assert bs[0..] == bs;
      assert [] + CollectedList(bs, engine.counter).0 == CollectedList(bs, engine.counter).0;
      while i < |bs|
        invariant i <= |bs| && |cs| == i
        invariant engine.counter >= old(engine.counter)
        invariant cs + CollectedList(bs[i..], engine.counter).0 == CollectedList(bs, old(engine.counter)).0
        invariant CollectedList(bs[i..], engine.counter).1 == CollectedList(bs, old(engine.counter)).1
        invariant putBlocks + ListPuts(bs[i..], engine.counter) == old(putBlocks) + ListPuts(bs, old(engine.counter))
      {
        ghost var c, puts := engine.counter, putBlocks;
        ListTurn(bs, i, c);
        var b := bs[i];
        assert b in bs && b.child < b;
        if b.loaded {
          var child, id := CollectBlocksRec(b.child);
          b := b.(child := child, id := id);
        }
        Regroup(cs, [b], CollectedList(bs[i + 1..], engine.counter).0);
        Regroup(puts, BranchPuts(bs[i], c), ListPuts(bs[i + 1..], engine.counter));
        cs := cs + [b];
        i := i + 1;
      }
      ListDone(engine.counter);
      assert bs[i..] == [];
      assert cs + [] == cs && putBlocks + [] == putBlocks;
    }

    /** collectMutation: the blocks put, and the blocks read. */
    method CollectMutation() returns (mutation: Mutation)
      ensures fresh(mutation) && mutation.newRootID == rootID
      ensures mutation.success == AllPut(putBlocks) && mutation.createdIDs == PutIds(putBlocks)
      ensures mutation.obsoleteIDs == loadedIDs
    {
      mutation := new Mutation(rootID);
      var failed := false;
      for j := 0 to |putBlocks|
        invariant failed == !AllPut(putBlocks[..j]) && mutation.success && mutation.newRootID == rootID
        invariant mutation.createdIDs == PutIds(putBlocks[..j]) && mutation.obsoleteIDs == []
      {
        PutTurn(putBlocks, j);
        if putBlocks[j].success {
          mutation.AddCreated(putBlocks[j].id);
        } else {
          failed := true;
        }
      }
      assert putBlocks[..|putBlocks|] == putBlocks;
      if failed {
        mutation.Fail();
      }
      for j := 0 to |loadedIDs|
        invariant mutation.success == AllPut(putBlocks) && mutation.newRootID == rootID
        invariant mutation.createdIDs == PutIds(putBlocks) && mutation.obsoleteIDs == loadedIDs[..j]
      {
        mutation.AddObsolete(loadedIDs[j]);
      }
    }

    // ---------------------------------------------------------------- the tree as its users see it

    function OriginIds(): multiset<Id> {
      if originID.Some? then multiset{originID.value} + Ids(origin) else multiset{}
    }

    function Current(): Node
      reads this
    {
      if root.Some? then root.value
      else if originID.Some? then origin
      else Leaf(Leaves.LeafData([], Overflow.End))
    }

    /**
     * Before it is written: what is not in memory is in the store, and the
     * blocks read and the blocks still to be read are different blocks of the
     * tree that was opened.
     */
    ghost predicate Valid()
      reads this, engine
    {
      && engine.Fresh() && rootID == originID && putBlocks == []
      && (root.None? ==> loadedIDs == [] && (originID.Some? ==> Stored(engine.blocks, originID.value, origin)))
      && (root.Some? ==> Backed(engine.blocks, root.value))
      && (root.Some? ==> multiset(loadedIDs) + Unread(root.value) <= OriginIds())
    }

    /** Loads the root, or starts a new leaf. */
    method Root() returns (n: Node)
      requires Valid()
      modifies this`root, this`loadedIDs
      ensures Valid() && n == old(Current()) && root == Some(n)
    {
      hide Backed, Beneath, Ids, Unread;
      if root.None? {
        if originID.Some? {
          Load(originID.value, PageOf(origin));
          StoredBacked(engine.blocks, origin);
          UnreadBelow(origin);
          root := Some(origin);
        } else {
          root := Some(Leaf(Leaves.LeafData([], Overflow.End)));
          NewLeaf(engine.blocks);
        }
      }
      n := root.value;
    }

    /** Puts back a root that an operation has changed. */
    method SetRoot(n: Node, r: Node, ghost l: seq<Id>)
      requires root == Some(n) && Backed(engine.blocks, r) && Charged(l, n, loadedIDs, r)
      requires engine.Fresh() && rootID == originID && putBlocks == []
      requires multiset(l) + Unread(n) <= OriginIds()
      modifies this`root
      ensures Valid() && root == Some(r)
    {
      hide Backed, Ids, Unread;
      root := Some(r);
    }

    method ApplyToRoot(e: Edit)
      requires Valid()
      modifies this`root, this`loadedIDs
      ensures Valid() && root == Some(Meaning.Apply(old(Current()), e, false))
    {
      hide Backed, Ids, Unread, Meaning.Apply, Charged;
      var n := Root();
      ghost var l := loadedIDs;
      var r := Apply(n, e, false);
      SetRoot(n, r, l);
    }

    /** None of the following changes anything when the pair is larger than a block: an exception is thrown. */
    method Insert(key: Key, value: Value) returns (thrown: bool)
      requires Valid()
      modifies this`root, this`loadedIDs
      ensures Valid() && thrown == (cfg.keySize(key) + |value| > cfg.block)
      ensures Current() == if thrown then old(Current())
              else Meaning.Apply(old(Current()), Edit(INSERT, key, value, true), false)
    {
      hide Backed, Ids, Unread, Meaning.Apply;
      thrown := cfg.keySize(key) + |value| > cfg.block;
      if !thrown { ApplyToRoot(Edit(INSERT, key, value, true)); }
    }

    method Upsert(key: Key, value: Value, guaranteed: bool) returns (thrown: bool)
      requires Valid()
      modifies this`root, this`loadedIDs
      ensures Valid() && thrown == (cfg.keySize(key) + |value| > cfg.block)
      ensures Current() == if thrown then old(Current())
              else Meaning.Apply(old(Current()), Edit(UPSERT, key, value, guaranteed), false)
    {
      hide Backed, Ids, Unread, Meaning.Apply;
      thrown := cfg.keySize(key) + |value| > cfg.block;
      if !thrown { ApplyToRoot(Edit(UPSERT, key, value, guaranteed)); }
    }

    method Remove(key: Key, value: Option<Value>, guaranteed: bool)
      requires Valid()
      modifies this`root, this`loadedIDs
      ensures Valid()
      ensures Current() == Meaning.Apply(old(Current()), if value.None? then Edit(REMOVE_KEY, key, [], guaranteed)
                                                         else Edit(REMOVE_KV, key, value.value, guaranteed), false)
    {
      hide Backed, Ids, Unread, Meaning.Apply;
      if value.None? {
        ApplyToRoot(Edit(REMOVE_KEY, key, [], guaranteed));
      } else {
        ApplyToRoot(Edit(REMOVE_KV, key, value.value, guaranteed));
      }
    }

    method Get(key: Key) returns (r: Option<Value>)
      requires Valid()
      modifies this`root, this`loadedIDs
      ensures Valid() && (Current(), r) == Lookup.Get(old(Current()), key)
    {
      hide Backed, Ids, Unread, Find, Charged, ValueAt;
      var n := Root();
      ghost var l := loadedIDs;
      var t := FindRec(n, Some(key), None, None);
      SetRoot(n, t, l);
      r := ValueAt(t, key);
    }

    method SeekTo(m: nat) returns (place: Option<Place>)
      requires Valid()
      modifies this`root, this`loadedIDs
      ensures Valid() && (Current(), place) == Seek(old(Current()), m, None, None)
    {
      hide Backed, Ids, Unread, Seek, Charged;
      var n := Root();
      ghost var l := loadedIDs;
      var t;
      t, place := SeekRec(n, m, None, None);
      SetRoot(n, t, l);
    }

    method RankOf(place: Place) returns (rank: int)
      requires Valid() && root.Some? && OnTree(root.value, place)
      modifies this`root, this`loadedIDs
      ensures Valid() && rank == Rank(old(Current()), place, None, None)
      ensures Current() == Ranked(old(Current()), place, None, None)
    {
      hide Backed, Ids, Unread, Rank, Ranked, Charged;
      var n := Root();
      ghost var l := loadedIDs;
      var t;
      t, rank := RankRec(n, place, None, None);
      SetRoot(n, t, l);
    }

    /** The loop that puts new roots over a split. */
    method GrowRoot(first: seq<Branch>) returns (split: seq<Branch>)
      requires |first| > 0 && first[0].loaded && ListBacked(engine.blocks, first)
      ensures |split| > 0 && split[0].loaded && ListBacked(engine.blocks, split)
      ensures ListUnread(split) == ListUnread(first)
      ensures Grow(cfg, first, 4) == if |split| == 1 then Some(split[0].child) else None
    {
      hide ListBacked, SplitInternal;
      split := first;
      var tries: nat := 4;
      while |split| > 1 && tries > 0
        invariant |split| > 0 && split[0].loaded
        invariant ListBacked(engine.blocks, split) && ListUnread(split) == ListUnread(first)
        invariant Grow(cfg, split, tries) == Grow(cfg, first, 4)
        decreases tries
      {
        SplitInternalLoaded(cfg, split, []);
        split := MaybeSplitInternal(split, []);
        tries := tries - 1;
      }
    }

    /** The first half of write(): the flush and the new roots. */
    method FlushRoot() returns (n: Node)
      requires Valid() && root.Some? && Flushable(cfg, root.value, None, None) && Writing.Write(cfg, root.value).Some?
      modifies this`loadedIDs
      ensures Writing.Write(cfg, root.value) == Some(n) && Backed(engine.blocks, n)
      ensures multiset(loadedIDs) + Unread(n) <= OriginIds()
    {
      hide Backed, Beneath, Ids, Unread, Flush, Grow, Flushable, Fair, ListBacked;
      ghost var n0, l := root.value, loadedIDs;
      var flushed := FlushAndSplitRec(root.value, None, None);
      FlushLoaded(cfg, n0);
      var split := GrowRoot(flushed);
      n := split[0].child;
      FlushedRoot(engine.blocks, split);
      FairBound(l, Unread(n0), loadedIDs, ListUnread(split), OriginIds());
    }

    /** The second half: new blocks for the nodes in memory, put into the store. */
    method PutRoot(n: Node) returns (thrown: bool)
      requires Backed(engine.blocks, n) && engine.Fresh() && putBlocks == []
      modifies this`root, this`rootID, this`putBlocks, engine
      ensures root == Some(Collected(n, old(engine.counter)).0) && engine.counter == Collected(n, old(engine.counter)).1
      ensures rootID == Some(engine.counter - 1)
      ensures thrown == !engine.Fits(Puts(n, old(engine.counter)))
      ensures !thrown ==> AllPut(putBlocks) && Consecutive(putBlocks, old(engine.counter), engine.counter)
      ensures !thrown ==> engine.blocks == Put(old(engine.blocks), Puts(n, old(engine.counter)))
      ensures !thrown ==> Stored(engine.blocks, rootID.value, root.value) && engine.Fresh()
    {
      hide Backed, Collected, Puts, Stored;
      ghost var store, c := engine.blocks, engine.counter;
      CollectedStored(store, n, c);
      PutsIds(n, c);
      var r, id := CollectBlocksRec(n);
      root, rootID := Some(r), Some(id);
      assert putBlocks == [] + Puts(n, c) == Puts(n, c);
      putBlocks, thrown := engine.PutAll(putBlocks);
    }

    /**
     * write(): flushes, grows the root, gives every node in memory a new block,
     * puts the blocks, and says which blocks are new and which are obsolete.
     * None is the exception for a page that does not fit its block.
     */
    method Write() returns (mutation: Option<Mutation>)
      requires Valid()
      requires root.Some? ==> Flushable(cfg, root.value, None, None) && Writing.Write(cfg, root.value).Some?
      modifies this, engine
      ensures mutation.Some? ==> fresh(mutation.value) && mutation.value.success && mutation.value.newRootID == rootID
      ensures old(root).None? ==> mutation.Some? && unchanged(engine) && unchanged(this)
                                  && mutation.value.createdIDs == [] && mutation.value.obsoleteIDs == []
      ensures old(root).Some? ==>
                (mutation.None? <==> !engine.Fits(Puts(Writing.Write(cfg, old(root).value).value, old(engine.counter))))
      ensures old(root).Some? && mutation.Some? ==>
                Written(Writing.Write(cfg, old(root).value).value, old(engine.counter), old(engine.blocks))
                && WrittenIds(old(engine.counter), mutation.value.createdIDs)
                && mutation.value.obsoleteIDs == loadedIDs
    {
      hide Backed, Unread, Ids, Collected, Puts, Put, Flushable, Stored, AllPut, PutIds, Consecutive;
      if root.None? {
        var m := new Mutation(rootID);
        return Some(m);
      }
      ghost var c := engine.counter;
      var n := FlushRoot();
      var thrown := PutRoot(n);
      if thrown {
        return None;
      }
      var m := CollectMutation();
      CreatedAre(m.createdIDs, putBlocks, c, engine.counter);
      mutation := Some(m);
    }

    /** The state after a write of tree n, when the next free id was c and the store was `before`. */
    ghost predicate Written(n: Node, c: nat, before: Store)
      reads this, engine
    {
      && root == Some(Collected(n, c).0) && engine.counter == Collected(n, c).1 && rootID == Some(engine.counter - 1)
      && engine.blocks == Put(before, Puts(n, c)) && engine.Fresh()
      && Stored(engine.blocks, rootID.value, root.value)
      && multiset(loadedIDs) + Unread(n) <= OriginIds()
    }

    /** The new ids are those given out since c, in order. */
    ghost predicate WrittenIds(c: nat, created: seq<Id>)
      reads engine
    {
      c + |created| == engine.counter && forall j :: 0 <= j < |created| ==> created[j] == c + j
    }
  }

  // ---------------------------------------------------------------- what queries leave

  /** The path of a place, with its nodes in memory. */
  ghost predicate OnTree(n: Node, p: Place)
    decreases n
  {
    n.Internal? ==>
      && |p.path| > 0 && p.path[0] < |n.branches| && n.branches[p.path[0]].loaded
      && OnTree(n.branches[p.path[0]].child, Place(p.path[1..], p.spot))
  }

  lemma PushTouched(n: Node, i: nat, lo: Option<Key>, hi: Option<Key>, deep: bool)
    requires n.Internal? && i < |n.branches|
    ensures Push(Touch(n, i), i, lo, hi, deep) == Push(n, i, lo, hi, deep)
  {
    hide ApplyMany;
    var t := Touch(n, i);
    assert t.branches[i := Push(n, i, lo, hi, deep).branches[i]]
      == n.branches[i := Push(n, i, lo, hi, deep).branches[i]];
  }

  lemma PushLoads(n: Node, i: nat, lo: Option<Key>, hi: Option<Key>, deep: bool)
    requires n.Internal? && i < |n.branches|
    ensures Push(n, i, lo, hi, deep).branches[i].loaded
    ensures forall j :: 0 <= j < |n.branches| && j != i ==> Push(n, i, lo, hi, deep).branches[j] == n.branches[j]
  {
    hide ApplyMany;
  }

  lemma DeltaLoads(n: Node, i: nat, lo: Option<Key>, hi: Option<Key>)
    requires n.Internal? && i < |n.branches|
    ensures RankDelta(n, i, lo, hi).0.branches[i].loaded
  {
    hide Push;
    PushLoads(Touch(n, i), i, lo, hi, true);
  }

  lemma DeltaElsewhere(n: Node, i: nat, lo: Option<Key>, hi: Option<Key>, j: nat)
    requires n.Internal? && i < |n.branches| && j < |n.branches| && j != i
    ensures RankDelta(n, i, lo, hi).0.branches[j] == n.branches[j]
  {
    hide Push;
    PushLoads(Touch(n, i), i, lo, hi, true);
  }

  lemma {:induction false} SeekMisses(c: Overflow.Chain, m: int, depth: nat)
    ensures m >= |Overflow.Flat(c)| ==> SeekChain(c, m, depth) == None
  {
    if c.Node? && m >= |Overflow.Flat(c)| {
      SeekMisses(c.next, m - |c.values|, depth + 1);
    }
  }

  // ---------------------------------------------------------------- accounts of nodes

  /** What was read while n became r is charged to what is no longer unread. */
  ghost predicate Charged(l0: seq<Id>, n: Node, l1: seq<Id>, r: Node) {
    Fair(l0, Unread(n), l1, Unread(r))
  }

  lemma LeafParts(store: Store, l: Leaves.Valid)
    ensures Backed(store, Leaf(l)) <==> ChainBacked(store, l.chain)
    ensures Unread(Leaf(l)) == ChainUnread(l.chain)
  {
  }

  lemma LeafCharged(l0: seq<Id>, l: Leaves.Valid, l1: seq<Id>, m: Leaves.Valid)
    requires Fair(l0, ChainUnread(l.chain), l1, ChainUnread(m.chain))
    ensures Charged(l0, Leaf(l), l1, Leaf(m))
  {
  }

  lemma BranchParts(store: Store, n: Node, i: nat)
    requires n.Internal? && i < |n.branches| && Backed(store, n)
    ensures var b := n.branches[i]; if b.loaded then Backed(store, b.child) else Stored(store, b.id, b.child)
  {
  }

  lemma ChargedTrans(l0: seq<Id>, b: Branch, l1: seq<Id>, c: Node, l2: seq<Id>, d: Node)
    requires Fair(l0, BranchUnread(b), l1, Unread(c)) && Charged(l1, c, l2, d)
    ensures Fair(l0, BranchUnread(b), l2, Unread(d))
  {
    hide Unread, BranchUnread;
  }

  lemma NothingCharged(l: seq<Id>, b: Branch)
    requires b.loaded
    ensures Fair(l, BranchUnread(b), l, Unread(b.child))
  {
  }

  lemma SameCharged(l: seq<Id>, n: Node)
    ensures Charged(l, n, l, n)
  {
  }

  lemma NodeTrans(l0: seq<Id>, n: Node, l1: seq<Id>, m: Node, l2: seq<Id>, r: Node)
    requires Charged(l0, n, l1, m) && Charged(l1, m, l2, r)
    ensures Charged(l0, n, l2, r)
  {
    hide Unread;
  }

  /** A branch replaced by one whose child is in memory. */
  lemma ChildReplaced(store: Store, l0: seq<Id>, l1: seq<Id>, n: Node, i: nat, b: Branch, q: seq<Edit>)
    requires n.Internal? && i < |n.branches| && Backed(store, n)
    requires b.loaded && Backed(store, b.child)
    requires Fair(l0, BranchUnread(n.branches[i]), l1, Unread(b.child))
    ensures Backed(store, Internal(n.branches[i := b], q))
    ensures Charged(l0, n, l1, Internal(n.branches[i := b], q))
  {
    ReplacedBacked(store, n, i, b, q);
    ReplacedCharged(l0, l1, n, i, b, q);
  }

  lemma ReplacedBacked(store: Store, n: Node, i: nat, b: Branch, q: seq<Edit>)
    requires n.Internal? && i < |n.branches| && Backed(store, n)
    requires b.loaded && Backed(store, b.child)
    ensures Backed(store, Internal(n.branches[i := b], q))
  {
    hide Beneath, PageOf;
  }

  lemma ReplacedCharged(l0: seq<Id>, l1: seq<Id>, n: Node, i: nat, b: Branch, q: seq<Edit>)
    requires n.Internal? && i < |n.branches| && b.loaded
    requires Fair(l0, BranchUnread(n.branches[i]), l1, Unread(b.child))
    ensures Charged(l0, n, l1, Internal(n.branches[i := b], q))
  {
    hide Ids, Fair, ListUnread;
    var bs := n.branches;
    ListUnreadUpdate(bs, i, b);
    assert Unread(n) == ListUnread(bs) && Unread(Internal(bs[i := b], q)) == ListUnread(bs[i := b]);
    assert BranchUnread(b) == Unread(b.child);
    FairWithin(l0, BranchUnread(bs[i]), l1, Unread(b.child), ListUnread(bs), ListUnread(bs[i := b]));
  }

  /** A child in memory replaced by what it became. */
  lemma ChildPut(store: Store, l0: seq<Id>, l1: seq<Id>, n: Node, i: nat, c: Node)
    requires n.Internal? && i < |n.branches| && n.branches[i].loaded && Backed(store, n)
    requires Backed(store, c) && Charged(l0, n.branches[i].child, l1, c)
    ensures Backed(store, PutChild(n, i, c)) && Charged(l0, n, l1, PutChild(n, i, c))
  {
    hide Backed, Ids, Fair;
    ChildReplaced(store, l0, l1, n, i, n.branches[i].(child := c), n.queue);
  }

  lemma QueueOnly(store: Store, l: seq<Id>, n: Node, r: Node)
    requires n.Internal? && r.Internal? && n.branches == r.branches && Backed(store, n)
    ensures Backed(store, r) && Charged(l, n, l, r)
  {
  }

  lemma NothingToRemove(l: Leaves.LeafData, key: Key, value: Option<Value>)
    requires Leaves.Inv(l) && |l.pairs| == 0
    ensures Leaves.Remove(l, key, value) == l
  {
  }

  /** Outside the range of the key nothing matches. */
  lemma OutsideRange(ps: seq<Pair>, key: Key, value: Option<Value>)
    requires Sorted(ps)
    ensures var b, e := LowerBound(ps, key), UpperBound(ps, key);
            && b <= e <= |ps|
            && Leaves.FirstMatch(ps, key, value, 0) == Leaves.FirstMatch(ps, key, value, b)
            && Leaves.FirstMatch(ps, key, value, e) == |ps|
            && forall i :: b <= i < e ==> ps[i].key == key
  {
    var b, e := LowerBound(ps, key), UpperBound(ps, key);
    FirstMatchSkips(ps, key, value, 0, b);
    FirstMatchSkips(ps, key, value, e, |ps|);
  }

  lemma {:induction false} FirstMatchSkips(ps: seq<Pair>, key: Key, value: Option<Value>, i: nat, j: nat)
    requires i <= j <= |ps| && forall x :: i <= x < j ==> ps[x].key != key
    ensures Leaves.FirstMatch(ps, key, value, i) == Leaves.FirstMatch(ps, key, value, j)
    decreases j - i
  {
    if i < j {
      FirstMatchSkips(ps, key, value, i + 1, j);
    }
  }

  // ---------------------------------------------------------------- lists of branches

  ghost predicate BranchBacked(store: Store, b: Branch) {
    if b.loaded then Backed(store, b.child) else Stored(store, b.id, b.child)
  }

  /** What is not in memory below a list of branches can be read from the store. */
  ghost predicate ListBacked(store: Store, bs: seq<Branch>) {
    forall i :: 0 <= i < |bs| ==> BranchBacked(store, bs[i])
  }

  lemma ListIsBacked(store: Store, bs: seq<Branch>, q: seq<Edit>)
    ensures Backed(store, Internal(bs, q)) <==> ListBacked(store, bs)
    ensures Unread(Internal(bs, q)) == ListUnread(bs)
  {
    hide Beneath, PageOf;
    if ListBacked(store, bs) {
      forall i | 0 <= i < |bs|
        ensures if bs[i].loaded then Backed(store, bs[i].child) else Stored(store, bs[i].id, bs[i].child)
      {
        assert BranchBacked(store, bs[i]);
      }
    }
  }

  lemma LeafListed(store: Store, sep: Option<Key>, l: Leaves.Valid)
    requires ChainBacked(store, l.chain)
    ensures ListBacked(store, [LeafBranch(sep, l)]) && ListUnread([LeafBranch(sep, l)]) == ChainUnread(l.chain)
  {
    ListUnreadOne(LeafBranch(sep, l));
  }

  lemma InternalListed(store: Store, sep: Option<Key>, bs: seq<Branch>, q: seq<Edit>)
    requires ListBacked(store, bs)
    ensures var b := NodeBranch(sep, Internal(bs, q)); ListBacked(store, [b]) && ListUnread([b]) == ListUnread(bs)
  {
    hide ListBacked, Backed;
    ListIsBacked(store, bs, q);
    var b := NodeBranch(sep, Internal(bs, q));
    ListUnreadOne(b);
    OneListed(store, b);
  }

  lemma OneListed(store: Store, b: Branch)
    ensures ListBacked(store, [b]) <==> BranchBacked(store, b)
  {
    if ListBacked(store, [b]) {
      assert BranchBacked(store, [b][0]);
    }
  }

  lemma FirstListed(store: Store, bs: seq<Branch>, sep: Option<Key>)
    requires |bs| > 0 && ListBacked(store, bs)
    ensures ListBacked(store, WithFirst(bs, sep)) && ListUnread(WithFirst(bs, sep)) == ListUnread(bs)
  {
    hide Backed, Stored;
    var cs := WithFirst(bs, sep);
    assert BranchBacked(store, bs[0]);
    ListUnreadSame(bs, cs);
  }

  lemma JoinListed(store: Store, a: seq<Branch>, b: seq<Branch>)
    requires ListBacked(store, a) && ListBacked(store, b)
    ensures ListBacked(store, a + b) && ListUnread(a + b) == ListUnread(a) + ListUnread(b)
  {
    hide BranchBacked;
    ListUnreadConcat(a, b);
  }

  lemma PartListed(store: Store, bs: seq<Branch>, j: nat)
    requires ListBacked(store, bs) && j <= |bs|
    ensures ListBacked(store, bs[..j]) && ListBacked(store, bs[j..])
    ensures ListUnread(bs) == ListUnread(bs[..j]) + ListUnread(bs[j..])
  {
    hide BranchBacked;
    assert bs == bs[..j] + bs[j..];
    ListUnreadConcat(bs[..j], bs[j..]);
  }

  // ---------------------------------------------------------------- chains that are pushed down

  lemma ValuesSizeNext(vs: seq<Value>, j: nat)
    requires j < |vs|
    ensures ValuesSize(vs[..j + 1]) == ValuesSize(vs[..j]) + |vs[j]|
  {
    assert vs[..j + 1] == vs[..j] + [vs[j]];
    ValuesSizeConcat(vs[..j], [vs[j]]);
    assert [vs[j]][1..] == [];
  }

  lemma SplitsMove(block: nat, c: Overflow.Chain)
    requires c.Node? && Overflow.Valid(c) && TooBig(block, OverflowSize(c.values))
    requires OverflowSplit(block, c.values, 0, HEADER + LINK) > 0
    ensures var j := OverflowSplit(block, c.values, 0, HEADER + LINK);
            0 < j < |c.values| && Overflow.Valid(Moved(c, j))
  {
    assert c.values[..0] == [];
    OverflowSplitStops(block, c.values, 0, HEADER + LINK);
    MovedIs(block, c, OverflowSplit(block, c.values, 0, HEADER + LINK));
  }

  /** One turn of the scan for the split index. */
  lemma SplitScan(cfg: Config, bs: seq<Branch>, i: nat, size: nat)
    requires 1 <= i
    ensures SplitIndex(cfg, bs, i, size)
         == if i >= |bs| then i
            else
              var next := size + (if i != 1 then SepSize(cfg, bs[i - 1]) else 0) + BRANCH;
              if next > (InternalSize(cfg, bs) + 1) / 2 then i else SplitIndex(cfg, bs, i + 1, next)
  {
  }

  lemma HereBefore(cfg: Config, ps: seq<Pair>)
    requires TooBig(cfg.block, LeafSize(cfg, ps)) && |ps| > 0
    ensures Here(cfg, ps, 0, HEADER + LINK) < |ps|
  {
    assert ps[..0] == [];
    HereIs(cfg, ps, 0, HEADER + LINK);
    assert ps[..|ps|] == ps;
  }

  /** A new chain has nothing to read. */
  lemma {:induction false} FreshPushed(store: Store, block: nat, c: Overflow.Chain)
    requires c.Node? && c.loaded && c.next.End?
    ensures ChainBacked(store, PushDown(block, c)) && ChainUnread(PushDown(block, c)) == multiset{}
    decreases |Overflow.Flat(c)|
  {
    if TooBig(block, OverflowSize(c.values)) {
      var j := OverflowSplit(block, c.values, 0, HEADER + LINK);
      if j > 0 {
        MovedShorter(c, j);
        FreshPushed(store, block, Moved(c, j));
        PushDownStep(block, c, j);
      }
    }
  }

  lemma NewChainUnread(store: Store, block: nat, vs: seq<Value>)
    ensures ChainBacked(store, NewChain(block, vs)) && ChainUnread(NewChain(block, vs)) == multiset{}
  {
    if |vs| > 0 {
      FreshPushed(store, block, Overflow.Node(|vs|, 0, true, vs, Overflow.End));
    }
  }

  // ---------------------------------------------------------------- fetching

  /** The edit is routed to a child that is not in memory, and stored under this id. */
  predicate Fetches(bs: seq<Branch>, e: Edit, id: Id)
    requires |bs| > 0
  {
    var b := bs[Route(bs, e.key)];
    !b.loaded && b.id == id
  }

  function LoadedFor(bs: seq<Branch>, q: seq<Edit>): (r: seq<Branch>)
    ensures |r| == |bs|
    ensures forall i :: 0 <= i < |bs| ==> r[i] == bs[i].(loaded := bs[i].loaded || |Range(bs, q, i)| > 0)
  {
    seq(|bs|, i requires 0 <= i < |bs| => bs[i].(loaded := bs[i].loaded || |Range(bs, q, i)| > 0))
  }

  /** Siblings are stored under different ids. */
  ghost predicate DistinctIds(n: Node) {
    n.Internal? ==>
      && (forall i, j :: 0 <= i < j < |n.branches| ==> n.branches[i].id != n.branches[j].id)
      && forall i :: 0 <= i < |n.branches| ==> DistinctIds(n.branches[i].child)
  }

  /** Routing agreement: exactly the unloaded children that receive edits are fetched. */
  lemma FetchedExact(n: Node, lo: Option<Key>, hi: Option<Key>, ids: seq<Id>, i: nat)
    requires n.Internal? && Ordered(n, lo, hi) && DistinctIds(n) && i < |n.branches|
    requires forall x :: x in ids <==> exists j :: 0 <= j < |n.queue| && Fetches(n.branches, n.queue[j], x)
    ensures n.branches[i].id in ids <==> !n.branches[i].loaded && |Range(n.branches, n.queue, i)| > 0
  {
    hide Ordered, Route, Separators;
    var bs, q := n.branches, n.queue;
    OrderedParts(n, lo, hi);
    RangeEnds(bs, q, lo, hi, i);
    if bs[i].id in ids {
      var j :| 0 <= j < |q| && Fetches(bs, q[j], bs[i].id);
      var r := Route(bs, q[j].key);
      assert r == i;
      RangeIsRouted(bs, q, lo, hi, i, j);
    }
    if !bs[i].loaded && |Range(bs, q, i)| > 0 {
      var j := Start(bs, q, i);
      RangeIsRouted(bs, q, lo, hi, i, j);
      assert Fetches(bs, q[j], bs[i].id);
    }
  }

  /** Everything to be fetched is in the store. */
  lemma FetchedAll(store: Store, n: Node, lo: Option<Key>, hi: Option<Key>, ids: seq<Id>)
    requires n.Internal? && |n.branches| > 0 && Backed(store, n)
    requires forall x :: x in ids <==> exists j :: 0 <= j < |n.queue| && Fetches(n.branches, n.queue[j], x)
    ensures forall x :: x in ids ==> x in store
  {
    forall x | x in ids
      ensures x in store
    {
      var j :| 0 <= j < |n.queue| && Fetches(n.branches, n.queue[j], x);
      BranchParts(store, n, Route(n.branches, n.queue[j].key));
    }
  }

  /** A branch replaced by one that is no less backed. */
  lemma BranchPut(store: Store, l0: seq<Id>, l1: seq<Id>, n: Node, i: nat, b: Branch, q: seq<Edit>)
    requires n.Internal? && i < |n.branches| && Backed(store, n) && BranchBacked(store, b)
    requires Fair(l0, BranchUnread(n.branches[i]), l1, BranchUnread(b))
    ensures Backed(store, Internal(n.branches[i := b], q))
    ensures Charged(l0, n, l1, Internal(n.branches[i := b], q))
  {
    hide Beneath, PageOf, Fair, Ids, BranchUnread;
    var bs := n.branches;
    var cs := bs[i := b];
    ListIsBacked(store, bs, n.queue);
    forall j | 0 <= j < |cs|
      ensures BranchBacked(store, cs[j])
    {
      if j != i { assert BranchBacked(store, bs[j]); }
    }
    ListIsBacked(store, cs, q);
    ListUnreadUpdate(bs, i, b);
    FairWithin(l0, BranchUnread(bs[i]), l1, BranchUnread(b), ListUnread(bs), ListUnread(cs));
  }

  lemma BranchRead(store: Store, l: seq<Id>, n: Node, i: nat)
    requires n.Internal? && i < |n.branches| && Backed(store, n) && !n.branches[i].loaded
    ensures var r := Internal(n.branches[i := n.branches[i].(loaded := true)], n.queue);
            Backed(store, r) && Charged(l, n, l + [n.branches[i].id], r)
  {
    hide Backed, Beneath, Ids, Unread, Charged;
    var b := n.branches[i];
    BranchParts(store, n, i);
    StoredBacked(store, b.child);
    UnreadBelow(b.child);
    FairRead(l, b.id, BranchUnread(b), Unread(b.child));
    BranchPut(store, l, l + [b.id], n, i, b.(loaded := true), n.queue);
  }

  lemma LeafChained(store: Store, l: Leaves.Valid)
    ensures Overflow.Valid(l.chain) && (Backed(store, Leaf(l)) <==> ChainBacked(store, l.chain))
    ensures Unread(Leaf(l)) == ChainUnread(l.chain)
  {
  }

  lemma ChainHolds(c: Overflow.Chain, m: nat)
    requires Overflow.Valid(c) && m < |Overflow.Flat(c)|
    ensures c.Node? && Overflow.Valid(c.next) && |Overflow.Flat(c)| == |c.values| + |Overflow.Flat(c.next)|
  {
  }

  lemma ChargedIs(l0: seq<Id>, n: Node, l1: seq<Id>, r: Node)
    ensures Charged(l0, n, l1, r) <==> Fair(l0, Unread(n), l1, Unread(r))
  {
  }

  lemma MergedLeaf(l: Leaves.Valid, es: seq<Edit>)
    requires SortedEdits(es) && MergeRuns(l, es)
    ensures Leaves.Inv(Leaves.LeafData(Merge(l.pairs, es), l.chain))
    ensures MergeLeaf(l, es) == Leaves.LeafData(Merge(l.pairs, es), l.chain)
  {
    MergeValid(l, es);
  }

  lemma BatchRuns(bs: seq<Branch>, q: seq<Edit>, i: nat)
    requires AllMergeRuns(bs, q) && i < |bs|
    ensures bs[i].child.Leaf? ==> MergeRuns(bs[i].child.leaf, Range(bs, q, i))
  {
  }

  // ---------------------------------------------------------------- trees that can be flushed

  ghost predicate Flushable(cfg: Config, n: Node, lo: Option<Key>, hi: Option<Key>) {
    Ordered(n, lo, hi) && Parsed(n) && DistinctIds(n) && Passable(cfg, n)
  }

  lemma FlushableParts(cfg: Config, n: Node, lo: Option<Key>, hi: Option<Key>)
    requires n.Internal? && Flushable(cfg, n, lo, hi)
    ensures Ordered(n, lo, hi) && DistinctIds(n)
    ensures QueueSize(cfg, n.queue) > cfg.queue ==> AllMergeRuns(n.branches, n.queue)
  {
    hide Ordered, Parsed, DistinctIds, AllMergeRuns;
  }

  lemma {:induction false} ApplyDistinct(n: Node, e: Edit, deep: bool)
    requires DistinctIds(n)
    ensures DistinctIds(Meaning.Apply(n, e, deep))
    decreases n
  {
    if n.Internal? && deep && |n.branches| > 0 {
      ApplyDistinct(n.branches[Route(n.branches, e.key)].child, e, deep);
    }
  }

  lemma {:induction false} MixDistinct(n: Node, es: seq<Edit>)
    requires DistinctIds(n)
    ensures DistinctIds(MixMany(n, es))
    decreases |es|
  {
    hide DistinctIds;
    if |es| > 0 {
      ApplyDistinct(n, es[0], !es[0].guaranteed);
      MixDistinct(Meaning.Apply(n, es[0], !es[0].guaranteed), es[1..]);
    }
  }

  lemma AppliedDistinct(cfg: Config, n: Node, k: nat)
    requires n.Internal? && DistinctIds(n) && k < |n.branches|
    ensures DistinctIds(MaybeApply(cfg, n.branches, n.queue).0[k].child)
  {
    if n.branches[k].child.Internal? {
      MixDistinct(n.branches[k].child, Range(n.branches, n.queue, k));
    }
  }

  /** Every loaded child the loop reaches can be flushed. */
  lemma ChildFlushable(cfg: Config, n: Node, k: nat, lo: Option<Key>, hi: Option<Key>)
    requires n.Internal? && Flushable(cfg, n, lo, hi)
    requires var cs := MaybeApply(cfg, n.branches, n.queue).0; k < |cs| && cs[k].loaded
    ensures var cs := MaybeApply(cfg, n.branches, n.queue).0;
            Flushable(cfg, cs[k].child, Lo(cs, k, lo), Hi(cs, k, hi)) && Height(cs[k].child) < Height(n)
  {
    hide DistinctIds, AllMergeRuns, MaybeApply;
    var (cs, p) := MaybeApply(cfg, n.branches, n.queue);
    MaybeLength(cfg, n);
    MaybeOrdered(cfg, n.branches, n.queue, lo, hi);
    MaybeParsed(cfg, n.branches, n.queue);
    MaybeHeight(cfg, n.branches, n.queue);
    MaxHeightBounds(cs, k);
    AppliedDistinct(cfg, n, k);
    assert PassableBelow(cfg, cs, k);
  }

  lemma MaybeLength(cfg: Config, n: Node)
    requires n.Internal?
    ensures |MaybeApply(cfg, n.branches, n.queue).0| == |n.branches|
  {
  }

  // ---------------------------------------------------------------- the flush loop

  lemma FlushTurn(cfg: Config, cs: seq<Branch>, k: nat)
    requires k < |cs|
    ensures FlushFrom(cfg, cs, k)
         == (if cs[k].loaded then Update(cs[k], Flush(cfg, cs[k].child)) else [cs[k]]) + FlushFrom(cfg, cs, k + 1)
  {
  }

  lemma FlushEnd(cfg: Config, cs: seq<Branch>)
    ensures FlushFrom(cfg, cs, |cs|) == []
  {
  }

  lemma BranchListed(store: Store, bs: seq<Branch>, i: nat)
    requires ListBacked(store, bs) && i < |bs|
    ensures BranchBacked(store, bs[i]) && (bs[i].loaded ==> Backed(store, bs[i].child))
  {
  }

  lemma UpdateListed(store: Store, b: Branch, split: seq<Branch>)
    requires |split| > 0 && b.loaded && split[0].loaded && ListBacked(store, split)
    ensures ListBacked(store, Update(b, split)) && ListUnread(Update(b, split)) <= ListUnread(split)
  {
    hide Backed, Stored, Ids, Unread;
    assert BranchBacked(store, split[0]);
    if Update(b, split) != [] {
      var u := b.(child := split[0].child, count := split[0].count);
      assert split == [split[0]] + split[1..];
      PartListed(store, split, 1);
      assert split[..1] == [split[0]];
      ListUnreadOne(u);
      ListUnreadOne(split[0]);
      OneListed(store, u);
      JoinListed(store, [u], split[1..]);
    }
  }

  lemma SegmentPut(store: Store, l0: seq<Id>, l1: seq<Id>, f: seq<Branch>, i: nat, split: seq<Branch>)
    requires ListBacked(store, f) && i < |f| && f[i].loaded
    requires |split| > 0 && split[0].loaded && ListBacked(store, split)
    requires Fair(l0, Unread(f[i].child), l1, ListUnread(split))
    ensures var r := f[..i] + Update(f[i], split) + f[i + 1..];
            ListBacked(store, r) && Fair(l0, ListUnread(f), l1, ListUnread(r))
  {
    hide ListBacked, Backed, Ids, Unread, ListUnread, Update;
    var u := Update(f[i], split);
    UpdateListed(store, f[i], split);
    PartListed(store, f, i);
    PartListed(store, f, i + 1);
    JoinListed(store, f[..i], u);
    JoinListed(store, f[..i] + u, f[i + 1..]);
    ListUnreadAt(f, i);
    assert BranchUnread(f[i]) == Unread(f[i].child);
    FairLess(l0, Unread(f[i].child), l1, ListUnread(split), ListUnread(u));
    FairWithin(l0, Unread(f[i].child), l1, ListUnread(u), ListUnread(f), ListUnread(f[..i] + u + f[i + 1..]));
  }

  lemma FairLess(l0: seq<Id>, u0: multiset<Id>, l1: seq<Id>, u1: multiset<Id>, u2: multiset<Id>)
    requires Fair(l0, u0, l1, u1) && u2 <= u1
    ensures Fair(l0, u0, l1, u2)
  {
  }

  lemma Replaced(before: seq<Branch>, i: nat, u: seq<Branch>, after: seq<Branch>, next: nat)
    requires i < |before| && after == before[..i] + u + before[i + 1..] && next == i + |u|
    ensures after[..next] == before[..i] + u && after[next..] == before[i + 1..]
  {
  }

  // ---------------------------------------------------------------- writing

  lemma ListTurn(bs: seq<Branch>, i: nat, c: nat)
    requires i < |bs|
    ensures var (b, k) := CollectedBranch(bs[i], c);
            && CollectedList(bs[i..], c) == ([b] + CollectedList(bs[i + 1..], k).0, CollectedList(bs[i + 1..], k).1)
            && ListPuts(bs[i..], c) == BranchPuts(bs[i], c) + ListPuts(bs[i + 1..], k)
  {
    assert bs[i..][1..] == bs[i + 1..];
  }

  lemma ListDone(c: nat)
    ensures CollectedList([], c) == ([], c) && ListPuts([], c) == []
  {
  }

  lemma NewLeaf(store: Store)
    ensures var n := Leaf(Leaves.LeafData([], Overflow.End)); Backed(store, n) && Unread(n) == multiset{}
  {
  }

  lemma FlushedRoot(store: Store, split: seq<Branch>)
    requires |split| == 1 && ListBacked(store, split) && split[0].loaded
    ensures Backed(store, split[0].child) && Unread(split[0].child) == ListUnread(split)
  {
    hide Backed, Unread;
    assert split == [split[0]];
    ListUnreadOne(split[0]);
    BranchListed(store, split, 0);
  }

  lemma FairBound(l0: seq<Id>, u0: multiset<Id>, l1: seq<Id>, u1: multiset<Id>, all: multiset<Id>)
    requires Fair(l0, u0, l1, u1) && multiset(l0) + u0 <= all
    ensures multiset(l1) + u1 <= all
  {
  }

  predicate AllPut(list: seq<PutBlock>) {
    forall j :: 0 <= j < |list| ==> list[j].success
  }

  /** The ids of the blocks that were put. */
  function PutIds(list: seq<PutBlock>): seq<Id> {
    if |list| == 0 then []
    else PutIds(list[..|list| - 1]) + if Last(list).success then [Last(list).id] else []
  }

  lemma PutTurn(list: seq<PutBlock>, j: nat)
    requires j < |list|
    ensures PutIds(list[..j + 1]) == PutIds(list[..j]) + if list[j].success then [list[j].id] else []
    ensures AllPut(list[..j + 1]) == (AllPut(list[..j]) && list[j].success)
  {
    assert list[..j + 1][..j] == list[..j];
  }

  lemma {:induction false} PutIdsAll(list: seq<PutBlock>)
    requires AllPut(list)
    ensures |PutIds(list)| == |list| && forall j :: 0 <= j < |list| ==> PutIds(list)[j] == list[j].id
  {
    if |list| > 0 {
      PutIdsAll(list[..|list| - 1]);
    }
  }

  lemma CreatedAre(ids: seq<Id>, list: seq<PutBlock>, a: nat, b: nat)
    requires Consecutive(list, a, b) && AllPut(list) && ids == PutIds(list)
    ensures a + |ids| == b && forall j :: 0 <= j < |ids| ==> ids[j] == a + j
  {
    PutIdsAll(list);
  }
}
