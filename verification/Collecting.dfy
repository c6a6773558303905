/**
 * collectBlocksRec: every node in memory is given a new block, children before
 * parents, and nothing else is touched.
 */
module Collecting {
  import opened Types
  import opened Tree
  import opened Blocks
  import opened Storage
  import opened Flags
  import Leaves
  import Overflow

  // ---------------------------------------------------------------- new ids

  /** The chain with new ids from c on for its nodes in memory, the last one first; and the next free id. */
  function CollectedChain(chain: Overflow.Chain, c: nat): (r: (Overflow.Chain, nat))
    ensures Overflow.Valid(chain) ==> Overflow.Valid(r.0)
    ensures Overflow.Flat(r.0) == Overflow.Flat(chain) && Overflow.Count(r.0) == Overflow.Count(chain)
    ensures r.1 >= c && r.0.End? == chain.End?
  {
    if chain.End? || !chain.loaded then (chain, c)
    else
      var (next, k) := CollectedChain(chain.next, c);
      (Overflow.Node(chain.count, k, true, chain.values, next), k + 1)
  }

  /** The node with new ids below it; its own id is the last one given out. */
  function Collected(n: Node, c: nat): (r: (Node, nat))
    ensures r.1 > c
    decreases n, 0
  {
    match n
    case Leaf(l) =>
      var (chain, k) := CollectedChain(l.chain, c);
      (Leaf(Leaves.LeafData(l.pairs, chain)), k + 1)
    case Internal(bs, q) =>
      var (cs, k) := CollectedList(bs, c);
      (Internal(cs, q), k + 1)
  }

  function CollectedBranch(b: Branch, c: nat): (r: (Branch, nat))
    ensures r.1 >= c && r.0.minKey == b.minKey && r.0.count == b.count && r.0.loaded == b.loaded
    decreases b
  {
    if b.loaded then
      var (child, k) := Collected(b.child, c);
      (b.(child := child, id := k - 1), k)
    else (b, c)
  }

  function CollectedList(bs: seq<Branch>, c: nat): (r: (seq<Branch>, nat))
    ensures |r.0| == |bs| && r.1 >= c
    decreases bs, 1
  {
    if |bs| == 0 then ([], c)
    else
      assert bs[0] in bs && bs[0].child < bs[0];
      var (b, k) := CollectedBranch(bs[0], c);
      var (rest, m) := CollectedList(bs[1..], k);
      ([b] + rest, m)
  }

  // ---------------------------------------------------------------- the blocks put

  function ChainPuts(chain: Overflow.Chain, c: nat): seq<PutBlock> {
    if chain.End? || !chain.loaded then []
    else
      var (next, k) := CollectedChain(chain.next, c);
      ChainPuts(chain.next, c) + [PutBlock(k, OverflowPage(chain.values, LinkTo(next)), false)]
  }

  function Puts(n: Node, c: nat): seq<PutBlock>
    decreases n, 0
  {
    var (r, k) := Collected(n, c);
    (match n
     case Leaf(l) => ChainPuts(l.chain, c)
     case Internal(bs, q) => ListPuts(bs, c))
    + [PutBlock(k - 1, PageOf(r), false)]
  }

  function BranchPuts(b: Branch, c: nat): seq<PutBlock>
    decreases b
  {
    if b.loaded then Puts(b.child, c) else []
  }

  function ListPuts(bs: seq<Branch>, c: nat): seq<PutBlock>
    decreases bs, 1
  {
    if |bs| == 0 then []
    else
      assert bs[0] in bs && bs[0].child < bs[0];
      BranchPuts(bs[0], c) + ListPuts(bs[1..], CollectedBranch(bs[0], c).1)
  }

  /** The ids a, ..., b - 1, each once. */
  ghost predicate Consecutive(list: seq<PutBlock>, a: nat, b: nat) {
    a <= b && |list| == b - a && forall j :: 0 <= j < |list| ==> list[j].id == a + j
  }

  lemma ConsecutiveJoin(x: seq<PutBlock>, y: seq<PutBlock>, a: nat, b: nat, c: nat)
    requires Consecutive(x, a, b) && Consecutive(y, b, c)
    ensures Consecutive(x + y, a, c)
  {
  }

  lemma {:induction false} ChainPutsIds(chain: Overflow.Chain, c: nat)
    ensures Consecutive(ChainPuts(chain, c), c, CollectedChain(chain, c).1)
  {
    if chain.Node? && chain.loaded {
      ChainPutsIds(chain.next, c);
    }
  }

  lemma {:induction false} PutsIds(n: Node, c: nat)
    ensures Consecutive(Puts(n, c), c, Collected(n, c).1)
    decreases n, 0
  {
    match n
    case Leaf(l) => ChainPutsIds(l.chain, c);
    case Internal(bs, _) => ListPutsIds(bs, c);
  }

  lemma {:induction false} ListPutsIds(bs: seq<Branch>, c: nat)
    ensures Consecutive(ListPuts(bs, c), c, CollectedList(bs, c).1)
    decreases bs, 1
  {
    if |bs| > 0 {
      assert bs[0] in bs && bs[0].child < bs[0];
      var k := CollectedBranch(bs[0], c).1;
      if bs[0].loaded {
        PutsIds(bs[0].child, c);
      }
      ListPutsIds(bs[1..], k);
      ConsecutiveJoin(BranchPuts(bs[0], c), ListPuts(bs[1..], k), c, k, CollectedList(bs, c).1);
    }
  }

  // ---------------------------------------------------------------- ids afterwards

  /** The ids a, ..., b - 1 as a bag. */
  function Span(a: nat, b: nat): multiset<Id>
    decreases b
  {
    if b <= a then multiset{} else Span(a, b - 1) + multiset{b - 1}
  }

  lemma {:induction false} SpanHolds(a: nat, b: nat, x: Id)
    ensures Span(a, b)[x] == if a <= x < b then 1 else 0
    decreases b
  {
    if b > a {
      SpanHolds(a, b - 1, x);
    }
  }

  lemma {:induction false} SpanJoin(a: nat, b: nat, c: nat)
    requires a <= b <= c
    ensures Span(a, b) + Span(b, c) == Span(a, c)
    decreases c
  {
    if c > b {
      SpanJoin(a, b, c - 1);
    }
  }

  lemma SpanNext(a: nat, b: nat)
    requires a <= b
    ensures Span(a, b + 1) == Span(a, b) + multiset{b}
  {
  }

  lemma AddLast(u: multiset<Id>, s: multiset<Id>, k: Id)
    ensures multiset{k} + (u + s) == u + (s + multiset{k})
    ensures (u + s) + multiset{k} == u + (s + multiset{k})
  {
  }

  lemma {:induction false} CollectedChainIds(chain: Overflow.Chain, c: nat)
    ensures var (r, k) := CollectedChain(chain, c); ChainIds(r) == ChainUnread(chain) + Span(c, k)
  {
    hide Span;
    if chain.Node? && chain.loaded {
      var (next, k) := CollectedChain(chain.next, c);
      CollectedChainIds(chain.next, c);
      SpanNext(c, k);
      AddLast(ChainUnread(chain.next), Span(c, k), k);
    } else {
      SpanNone(c);
    }
  }

  lemma SpanNone(c: nat)
    ensures Span(c, c) == multiset{}
  {
  }

  /** What is reachable afterwards is what was never read, and the new blocks. */
  lemma {:induction false} CollectedIds(n: Node, c: nat)
    ensures var (r, k) := Collected(n, c); Ids(r) + multiset{k - 1} == Unread(n) + Span(c, k)
    decreases n, 0
  {
    hide Span, Collected, Ids, Unread, ChainIds, ChainUnread, ListIds, ListUnread;
    match n
    case Leaf(l) =>
      var k := LeafCollected(l, c);
      CollectedChainIds(l.chain, c);
      SpanNext(c, k);
      AddLast(ChainUnread(l.chain), Span(c, k), k);
    case Internal(bs, q) =>
      var k := InternalCollected(bs, q, c);
      CollectedListIds(bs, c);
      SpanNext(c, k);
      AddLast(ListUnread(bs), Span(c, k), k);
  }

  lemma LeafCollected(l: Leaves.Valid, c: nat) returns (k: nat)
    ensures k == CollectedChain(l.chain, c).1 && Collected(Leaf(l), c).1 == k + 1
    ensures Ids(Collected(Leaf(l), c).0) == ChainIds(CollectedChain(l.chain, c).0)
    ensures Unread(Leaf(l)) == ChainUnread(l.chain)
  {
    k := CollectedChain(l.chain, c).1;
  }

  lemma InternalCollected(bs: seq<Branch>, q: seq<Edit>, c: nat) returns (k: nat)
    ensures k == CollectedList(bs, c).1 && Collected(Internal(bs, q), c).1 == k + 1
    ensures Ids(Collected(Internal(bs, q), c).0) == ListIds(CollectedList(bs, c).0)
    ensures Unread(Internal(bs, q)) == ListUnread(bs)
  {
    k := CollectedList(bs, c).1;
  }

  lemma BranchIds(b: Branch, c: nat)
    requires b.loaded ==> var (r, k) := Collected(b.child, c); Ids(r) + multiset{k - 1} == Unread(b.child) + Span(c, k)
    ensures var (r, k) := CollectedBranch(b, c); multiset{r.id} + Ids(r.child) == BranchUnread(b) + Span(c, k)
  {
    hide Span, Collected, Ids, Unread;
    if !b.loaded {
      SpanNone(c);
    }
  }

  lemma {:induction false} CollectedListIds(bs: seq<Branch>, c: nat)
    ensures var (r, k) := CollectedList(bs, c); ListIds(r) == ListUnread(bs) + Span(c, k)
    decreases bs, 1
  {
    hide Span, Ids, BranchUnread, Collected, CollectedBranch, ListIds, ListUnread;
    if |bs| == 0 {
      SpanNone(c);
      NoIds();
    } else {
      assert bs[0] in bs && bs[0].child < bs[0];
      var (b, k) := CollectedBranch(bs[0], c);
      var (rest, m) := CollectedList(bs[1..], k);
      if bs[0].loaded {
        CollectedIds(bs[0].child, c);
      }
      BranchIds(bs[0], c);
      CollectedListIds(bs[1..], k);
      SpanJoin(c, k, m);
      HeadIds(bs, b, rest, c, k, m);
    }
  }

  lemma NoIds()
    ensures ListIds([]) == multiset{} && ListUnread([]) == multiset{}
  {
  }

  lemma HeadIds(bs: seq<Branch>, b: Branch, rest: seq<Branch>, c: nat, k: nat, m: nat)
    requires |bs| > 0 && c <= k <= m && Span(c, m) == Span(c, k) + Span(k, m)
    requires multiset{b.id} + Ids(b.child) == BranchUnread(bs[0]) + Span(c, k)
    requires ListIds(rest) == ListUnread(bs[1..]) + Span(k, m)
    ensures ListIds([b] + rest) == ListUnread(bs) + Span(c, m)
  {
    hide Ids, BranchUnread, Span;
    assert ([b] + rest)[1..] == rest;
  }

  // ---------------------------------------------------------------- flags afterwards

  lemma {:induction false} CollectedChainPlain(chain: Overflow.Chain, c: nat)
    ensures PlainChain(CollectedChain(chain, c).0) == PlainChain(chain)
  {
    if chain.Node? && chain.loaded {
      CollectedChainPlain(chain.next, c);
    }
  }

  /** Collecting changes ids only. */
  lemma {:induction false} CollectedLike(n: Node, c: nat)
    ensures Like(n, Collected(n, c).0)
    decreases n, 0
  {
    match n
    case Leaf(l) => CollectedChainPlain(l.chain, c);
    case Internal(bs, q) =>
      CollectedListLike(bs, c);
      SameEdits(q);
      LikeParts(n, Collected(n, c).0);
  }

  lemma SameEdits(q: seq<Edit>)
    ensures LikeEdits(q, q)
  {
  }

  lemma {:induction false} CollectedListLike(bs: seq<Branch>, c: nat)
    ensures LikeBranches(bs, CollectedList(bs, c).0)
    decreases bs, 1
  {
    hide Like;
    if |bs| > 0 {
      assert bs[0] in bs && bs[0].child < bs[0];
      var (b, k) := CollectedBranch(bs[0], c);
      if bs[0].loaded {
        CollectedLike(bs[0].child, c);
      } else {
        SameLike(b.child);
      }
      CollectedListLike(bs[1..], k);
      var r := CollectedList(bs, c).0;
      forall i | 0 <= i < |bs|
        ensures bs[i].minKey == r[i].minKey && Like(bs[i].child, r[i].child)
      {
        if i > 0 {
          assert bs[i] == bs[1..][i - 1] && r[i] == CollectedList(bs[1..], k).0[i - 1];
        }
      }
    }
  }

  lemma SameLike(n: Node)
    ensures Like(n, n)
  {
  }

  // ---------------------------------------------------------------- stored afterwards

  ghost predicate IdsUnder(ids: multiset<Id>, c: nat) {
    forall x :: x in ids ==> x < c
  }

  ghost predicate StoreUnder(s: Store, c: nat) {
    forall x :: x in s ==> x < c
  }

  /** Puts under new ids leave a stored tree stored. */
  lemma StoredStays(s: Store, list: seq<PutBlock>, a: nat, b: nat, id: Id, n: Node)
    requires Stored(s, id, n) && Consecutive(list, a, b) && IdsUnder(Ids(n) + multiset{id}, a)
    ensures Stored(Put(s, list), id, n)
  {
    hide Beneath, Ids, Put;
    var t := Put(s, list);
    forall i | i in Ids(n) + multiset{id} && i in s
      ensures i in t && t[i] == s[i]
    {
      PutIs(s, list, i);
    }
    assert id in Ids(n) + multiset{id};
    BeneathAgree(s, t, n);
  }

  lemma ChainStays(s: Store, list: seq<PutBlock>, a: nat, b: nat, c: Overflow.Chain)
    requires LinksStored(s, c) && Consecutive(list, a, b) && IdsUnder(ChainIds(c), a)
    ensures LinksStored(Put(s, list), c)
  {
    hide LinksStored, ChainIds, Put;
    var t := Put(s, list);
    forall i | i in ChainIds(c) && i in s
      ensures i in t && t[i] == s[i]
    {
      PutIs(s, list, i);
    }
    LinksStoredAgree(s, t, c);
  }

  lemma {:induction false} BackedUnder(s: Store, n: Node, c: nat)
    requires Backed(s, n) && StoreUnder(s, c)
    ensures IdsUnder(Unread(n), c)
    decreases n, 0
  {
    match n
    case Leaf(l) => ChainBackedUnder(s, l.chain, c);
    case Internal(bs, _) => ListBackedUnder(s, bs, c);
  }

  lemma {:induction false} ChainBackedUnder(s: Store, chain: Overflow.Chain, c: nat)
    requires ChainBacked(s, chain) && StoreUnder(s, c)
    ensures IdsUnder(ChainUnread(chain), c)
  {
    if chain.Node? {
      if chain.loaded {
        ChainBackedUnder(s, chain.next, c);
      } else {
        forall x | x in ChainIds(chain)
          ensures x < c
        {
          ChainIdsIn(s, chain, x);
        }
      }
    }
  }

  lemma StoredUnder(s: Store, id: Id, n: Node, c: nat)
    requires Stored(s, id, n) && StoreUnder(s, c)
    ensures IdsUnder(Ids(n) + multiset{id}, c)
  {
    hide Beneath, Ids;
    forall x | x in Ids(n) + multiset{id}
      ensures x < c
    {
      if x in Ids(n) { IdsIn(s, n, x); }
    }
  }

  lemma {:induction false} ListBackedUnder(s: Store, bs: seq<Branch>, c: nat)
    requires StoreUnder(s, c)
    requires forall i :: 0 <= i < |bs| ==>
               if bs[i].loaded then Backed(s, bs[i].child) else Stored(s, bs[i].id, bs[i].child)
    ensures IdsUnder(ListUnread(bs), c)
    decreases bs, 1
  {
    hide Beneath, PageOf;
    if |bs| > 0 {
      assert bs[0] in bs && bs[0].child < bs[0];
      if bs[0].loaded {
        BackedUnder(s, bs[0].child, c);
      } else {
        StoredUnder(s, bs[0].id, bs[0].child, c);
        assert multiset{bs[0].id} + Ids(bs[0].child) == Ids(bs[0].child) + multiset{bs[0].id};
      }
      ListBackedUnder(s, bs[1..], c);
    }
  }

  lemma SpanUnder(ids: multiset<Id>, a: nat, b: nat)
    requires IdsUnder(ids, a) && a <= b
    ensures IdsUnder(ids + Span(a, b), b)
  {
    forall x | x in ids + Span(a, b)
      ensures x < b
    {
      SpanHolds(a, b, x);
    }
  }

  /** After the puts of its nodes the chain can be read. */
  lemma {:induction false} CollectedChainStored(s: Store, chain: Overflow.Chain, c: nat)
    requires ChainBacked(s, chain) && StoreUnder(s, c)
    ensures var (r, k) := CollectedChain(chain, c);
            LinksStored(Put(s, ChainPuts(chain, c)), r) && StoreUnder(Put(s, ChainPuts(chain, c)), k)
  {
    hide ChainIds;
    if chain.Node? && chain.loaded {
      var (next, k) := CollectedChain(chain.next, c);
      CollectedChainStored(s, chain.next, c);
      var t := Put(s, ChainPuts(chain.next, c));
      var p := PutBlock(k, OverflowPage(chain.values, LinkTo(next)), false);
      CollectedChainIds(chain.next, c);
      ChainBackedUnder(s, chain.next, c);
      SpanUnder(ChainUnread(chain.next), c, k);
      PutConcat(s, ChainPuts(chain.next, c), [p]);
      OnePut(t, p);
      ChainStays(t, [p], k, k + 1, next);
    }
  }

  lemma OnePut(s: Store, p: PutBlock)
    ensures Put(s, [p]) == s[p.id := p.page] && Consecutive([p], p.id, p.id + 1)
    ensures StoreUnder(s, p.id) ==> StoreUnder(Put(s, [p]), p.id + 1)
  {
    assert [p][1..] == [];
  }

  /** After the puts of a collected tree all of it can be read, starting at the last id given out. */
  lemma {:induction false} CollectedStored(s: Store, n: Node, c: nat)
    requires Backed(s, n) && StoreUnder(s, c)
    ensures var (r, k) := Collected(n, c); var t := Put(s, Puts(n, c));
            Stored(t, k - 1, r) && StoreUnder(t, k)
    decreases n, 0
  {
    hide Beneath, Backed, PageOf, Ids, Unread, Put;
    var (r, k) := Collected(n, c);
    var below := match n case Leaf(l) => ChainPuts(l.chain, c) case Internal(bs, _) => ListPuts(bs, c);
    var t := Put(s, below);
    var p := PutBlock(k - 1, PageOf(r), false);
    match n {
      case Leaf(l) => CollectedLeafStored(s, l, c);
      case Internal(bs, q) =>
        NodeBacked(s, bs, q);
        CollectedListStored(s, bs, c);
        NodeBeneath(t, r);
    }
    PutConcat(s, below, [p]);
    OnePut(t, p);
    CollectedUnder(s, n, c);
    BeneathStays(t, p, r, k - 1);
  }

  lemma CollectedLeafStored(s: Store, l: Leaves.Valid, c: nat)
    requires Backed(s, Leaf(l)) && StoreUnder(s, c)
    ensures var (r, k) := Collected(Leaf(l), c); var t := Put(s, ChainPuts(l.chain, c));
            Beneath(t, r) && StoreUnder(t, k - 1)
  {
    CollectedChainStored(s, l.chain, c);
  }

  lemma CollectedUnder(s: Store, n: Node, c: nat)
    requires Backed(s, n) && StoreUnder(s, c)
    ensures IdsUnder(Ids(Collected(n, c).0), Collected(n, c).1 - 1)
  {
    hide Backed, Collected, Ids, Unread, Span;
    var (r, k) := Collected(n, c);
    CollectedIds(n, c);
    BackedUnder(s, n, c);
    forall x | x in Ids(r)
      ensures x < k - 1
    {
      SpanHolds(c, k, x);
      SpanHolds(c, k, k - 1);
      assert (Ids(r) + multiset{k - 1})[x] == (Unread(n) + Span(c, k))[x];
    }
  }

  lemma BeneathStays(t: Store, p: PutBlock, n: Node, c: nat)
    requires Beneath(t, n) && p == PutBlock(c, PageOf(n), false) && IdsUnder(Ids(n), c)
    ensures Stored(Put(t, [p]), c, n)
  {
    hide Beneath, Ids, PageOf;
    OnePut(t, p);
    forall i | i in Ids(n) && i in t
      ensures i in Put(t, [p]) && Put(t, [p])[i] == t[i]
    {
    }
    BeneathAgree(t, Put(t, [p]), n);
  }

  ghost predicate BranchKept(s: Store, b: Branch) {
    if b.loaded then Backed(s, b.child) else Stored(s, b.id, b.child)
  }

  lemma NodeBacked(s: Store, bs: seq<Branch>, q: seq<Edit>)
    requires Backed(s, Internal(bs, q))
    ensures forall i :: 0 <= i < |bs| ==> BranchKept(s, bs[i])
  {
    hide Beneath, PageOf;
  }

  lemma NodeBeneath(s: Store, r: Node)
    requires r.Internal? && forall i :: 0 <= i < |r.branches| ==> Stored(s, r.branches[i].id, r.branches[i].child)
    ensures Beneath(s, r)
  {
    hide PageOf;
    forall i | 0 <= i < |r.branches|
      ensures var b := r.branches[i]; b.id in s && s[b.id] == PageOf(b.child) && Beneath(s, b.child)
    {
      assert Stored(s, r.branches[i].id, r.branches[i].child);
    }
  }

  /** A branch is backed in a larger store. */
  lemma {:induction false} BackedGrows(s: Store, list: seq<PutBlock>, a: nat, b: nat, n: Node)
    requires Backed(s, n) && StoreUnder(s, a) && Consecutive(list, a, b)
    ensures Backed(Put(s, list), n)
    decreases n
  {
    match n
    case Leaf(l) => ChainBackedGrows(s, list, a, b, l.chain);
    case Internal(bs, _) =>
      forall i | 0 <= i < |bs|
        ensures if bs[i].loaded then Backed(Put(s, list), bs[i].child) else Stored(Put(s, list), bs[i].id, bs[i].child)
      {
        if bs[i].loaded {
          BackedGrows(s, list, a, b, bs[i].child);
        } else {
          StoredUnder(s, bs[i].id, bs[i].child, a);
          StoredStays(s, list, a, b, bs[i].id, bs[i].child);
        }
      }
  }

  lemma {:induction false} ChainBackedGrows(s: Store, list: seq<PutBlock>, a: nat, b: nat, c: Overflow.Chain)
    requires ChainBacked(s, c) && StoreUnder(s, a) && Consecutive(list, a, b)
    ensures ChainBacked(Put(s, list), c)
  {
    if c.Node? {
      if c.loaded {
        ChainBackedGrows(s, list, a, b, c.next);
      } else {
        forall x | x in ChainIds(c)
          ensures x < a
        {
          ChainIdsIn(s, c, x);
        }
        ChainStays(s, list, a, b, c);
      }
    }
  }

  lemma BranchGrows(s: Store, list: seq<PutBlock>, a: nat, b: nat, x: Branch)
    requires BranchKept(s, x) && StoreUnder(s, a) && Consecutive(list, a, b)
    ensures BranchKept(Put(s, list), x)
  {
    hide Backed, Beneath, Ids, Put;
    if x.loaded {
      BackedGrows(s, list, a, b, x.child);
    } else {
      StoredUnder(s, x.id, x.child, a);
      StoredStays(s, list, a, b, x.id, x.child);
    }
  }

  lemma {:induction false} CollectedBranchStored(s: Store, b: Branch, c: nat)
    requires BranchKept(s, b) && StoreUnder(s, c)
    ensures var (r, k) := CollectedBranch(b, c); var t := Put(s, BranchPuts(b, c));
            && Stored(t, r.id, r.child) && StoreUnder(t, k)
            && IdsUnder(Ids(r.child) + multiset{r.id}, k)
            && Consecutive(BranchPuts(b, c), c, k)
    decreases b
  {
    hide Backed, Beneath, Ids, Unread;
    if b.loaded {
      CollectedStored(s, b.child, c);
      PutsIds(b.child, c);
      CollectedIds(b.child, c);
      BackedUnder(s, b.child, c);
      SpanUnder(Unread(b.child), c, Collected(b.child, c).1);
    } else {
      StoredUnder(s, b.id, b.child, c);
    }
  }

  lemma {:induction false} CollectedListStored(s: Store, bs: seq<Branch>, c: nat)
    requires StoreUnder(s, c) && forall i :: 0 <= i < |bs| ==> BranchKept(s, bs[i])
    ensures var (r, k) := CollectedList(bs, c); var t := Put(s, ListPuts(bs, c));
            (forall i :: 0 <= i < |r| ==> Stored(t, r[i].id, r[i].child)) && StoreUnder(t, k)
    decreases bs, 1
  {
    hide Backed, Stored, BranchKept, Ids, Put, StoreUnder, Consecutive;
    if |bs| == 0 {
      PutNone(s);
    } else {
      assert bs[0] in bs && bs[0].child < bs[0];
      var (b, k) := CollectedBranch(bs[0], c);
      CollectedBranchStored(s, bs[0], c);
      var first, rest := BranchPuts(bs[0], c), ListPuts(bs[1..], k);
      var t := Put(s, first);
      forall i | 0 <= i < |bs[1..]|
        ensures BranchKept(t, bs[1..][i])
      {
        BranchGrows(s, first, c, k, bs[1..][i]);
      }
      CollectedListStored(t, bs[1..], k);
      ListPutsIds(bs[1..], k);
      var m := CollectedList(bs[1..], k).1;
      StoredStays(t, rest, k, m, b.id, b.child);
      PutConcat(s, first, rest);
      var r := CollectedList(bs, c).0;
      forall i | 0 <= i < |r|
        ensures Stored(Put(s, ListPuts(bs, c)), r[i].id, r[i].child)
      {
        if i > 0 { assert r[i] == CollectedList(bs[1..], k).0[i - 1]; }
      }
    }
  }

  lemma PutNone(s: Store)
    ensures Put(s, []) == s
  {
  }
}
