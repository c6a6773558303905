/**
 * Blocks and the trees stored in them.  A page links to its children by id;
 * unchanged parts of a tree are shared between versions.
 */
module Blocks {
  import opened Types
  import opened Tree
  import Leaves
  import Overflow

  // ---------------------------------------------------------------- pages

  /** The reference to an overflow node; a count of zero means there is none. */
  datatype Link = Link(count: nat, id: Id)

  datatype Entry = Entry(minKey: Option<Key>, count: int, id: Id)

  datatype Page =
    | LeafPage(pairs: seq<Pair>, overflow: Link)
    | OverflowPage(values: seq<Value>, next: Link)
    | InternalPage(entries: seq<Entry>, queue: seq<Edit>)

  type Store = map<Id, Page>

  function LinkTo(c: Overflow.Chain): Link {
    if c.End? then Link(0, 0) else Link(c.count, c.id)
  }

  function Entries(bs: seq<Branch>): (r: seq<Entry>)
    ensures |r| == |bs|
  {
    seq(|bs|, i requires 0 <= i < |bs| => Entry(if i == 0 then None else bs[i].minKey, bs[i].count, bs[i].id))
  }

  /** Queued edits are stored without their flags. */
  function Unflagged(q: seq<Edit>): (r: seq<Edit>)
    ensures |r| == |q|
  {
    seq(|q|, i requires 0 <= i < |q| => q[i].(guaranteed := false))
  }

  /** What a node alone puts on its page. */
  function PageOf(n: Node): Page {
    match n
    case Leaf(l) => LeafPage(l.pairs, LinkTo(l.chain))
    case Internal(bs, q) => InternalPage(Entries(bs), Unflagged(q))
  }

  // ---------------------------------------------------------------- stored trees

  ghost predicate LinksStored(store: Store, c: Overflow.Chain) {
    c.Node? ==>
      && c.id in store && store[c.id] == OverflowPage(c.values, LinkTo(c.next))
      && LinksStored(store, c.next)
  }

  /** Everything below the node can be read from the store. */
  ghost predicate Beneath(store: Store, n: Node) {
    match n
    case Leaf(l) => LinksStored(store, l.chain)
    case Internal(bs, _) =>
      forall i :: 0 <= i < |bs| ==>
        && bs[i].id in store && store[bs[i].id] == PageOf(bs[i].child)
        && Beneath(store, bs[i].child)
  }

  /** The whole tree can be read from the store, starting at id. */
  ghost predicate Stored(store: Store, id: Id, n: Node) {
    id in store && store[id] == PageOf(n) && Beneath(store, n)
  }

  ghost predicate ChainBacked(store: Store, c: Overflow.Chain) {
    c.Node? ==> if c.loaded then ChainBacked(store, c.next) else LinksStored(store, c)
  }

  /** What is not in memory can be read from the store. */
  ghost predicate Backed(store: Store, n: Node) {
    match n
    case Leaf(l) => ChainBacked(store, l.chain)
    case Internal(bs, _) =>
      forall i :: 0 <= i < |bs| ==>
        if bs[i].loaded then Backed(store, bs[i].child) else Stored(store, bs[i].id, bs[i].child)
  }

  lemma {:induction false} LinksStoredBacked(store: Store, c: Overflow.Chain)
    requires LinksStored(store, c)
    ensures ChainBacked(store, c)
  {
    if c.Node? {
      LinksStoredBacked(store, c.next);
    }
  }

  lemma {:induction false} StoredBacked(store: Store, n: Node)
    requires Beneath(store, n)
    ensures Backed(store, n)
  {
    match n
    case Leaf(l) => LinksStoredBacked(store, l.chain);
    case Internal(bs, _) =>
      forall i | 0 <= i < |bs|
        ensures if bs[i].loaded then Backed(store, bs[i].child) else Stored(store, bs[i].id, bs[i].child)
      {
        StoredBacked(store, bs[i].child);
      }
  }

  // ---------------------------------------------------------------- ids

  function ChainIds(c: Overflow.Chain): multiset<Id> {
    if c.End? then multiset{} else multiset{c.id} + ChainIds(c.next)
  }

  /** The ids of everything below a node. */
  function Ids(n: Node): multiset<Id>
    decreases n, 0
  {
    match n
    case Leaf(l) => ChainIds(l.chain)
    case Internal(bs, _) => ListIds(bs)
  }

  function ListIds(bs: seq<Branch>): multiset<Id>
    decreases bs, 1
  {
    if |bs| == 0 then multiset{}
    else
      var b := bs[0];
      assert b in bs && b.child < b;
      multiset{b.id} + Ids(b.child) + ListIds(bs[1..])
  }

  /** The ids that have not been read: what is below them has not been, either. */
  function ChainUnread(c: Overflow.Chain): multiset<Id> {
    if c.End? then multiset{} else if c.loaded then ChainUnread(c.next) else ChainIds(c)
  }

  function Unread(n: Node): multiset<Id>
    decreases n, 0
  {
    match n
    case Leaf(l) => ChainUnread(l.chain)
    case Internal(bs, _) => ListUnread(bs)
  }

  function BranchUnread(b: Branch): multiset<Id>
    decreases b
  {
    if b.loaded then Unread(b.child) else multiset{b.id} + Ids(b.child)
  }

  function ListUnread(bs: seq<Branch>): multiset<Id>
    decreases bs, 1
  {
    if |bs| == 0 then multiset{}
    else
      assert bs[0] in bs;
      BranchUnread(bs[0]) + ListUnread(bs[1..])
  }

  lemma {:induction false} ChainUnreadBelow(c: Overflow.Chain)
    ensures ChainUnread(c) <= ChainIds(c)
  {
    if c.Node? {
      ChainUnreadBelow(c.next);
    }
  }

  lemma {:induction false} UnreadBelow(n: Node)
    ensures Unread(n) <= Ids(n)
    decreases n, 0
  {
    match n
    case Leaf(l) => ChainUnreadBelow(l.chain);
    case Internal(bs, _) => ListUnreadBelow(bs);
  }

  lemma {:induction false} ListUnreadBelow(bs: seq<Branch>)
    ensures ListUnread(bs) <= ListIds(bs)
    decreases bs, 1
  {
    if |bs| > 0 {
      var b := bs[0];
      assert b in bs && b.child < b;
      UnreadBelow(b.child);
      ListUnreadBelow(bs[1..]);
    }
  }

  lemma {:induction false} ListUnreadConcat(a: seq<Branch>, b: seq<Branch>)
    ensures ListUnread(a + b) == ListUnread(a) + ListUnread(b)
  {
    if |a| == 0 {
      assert a + b == b;
    } else {
      assert (a + b)[1..] == a[1..] + b;
      ListUnreadConcat(a[1..], b);
    }
  }

  lemma ListUnreadOne(b: Branch)
    ensures ListUnread([b]) == BranchUnread(b)
  {
    assert [b][1..] == [];
  }

  lemma ListUnreadAt(bs: seq<Branch>, i: nat)
    requires i < |bs|
    ensures ListUnread(bs) == ListUnread(bs[..i]) + BranchUnread(bs[i]) + ListUnread(bs[i + 1..])
  {
    hide BranchUnread, ListUnread;
    assert bs == bs[..i] + ([bs[i]] + bs[i + 1..]);
    ListUnreadConcat(bs[..i], [bs[i]] + bs[i + 1..]);
    ListUnreadConcat([bs[i]], bs[i + 1..]);
    ListUnreadOne(bs[i]);
  }

  /** Replacing one branch replaces its share. */
  lemma ListUnreadUpdate(bs: seq<Branch>, i: nat, b: Branch)
    requires i < |bs|
    ensures ListUnread(bs[i := b]) + BranchUnread(bs[i]) == ListUnread(bs) + BranchUnread(b)
  {
    ListUnreadAt(bs, i);
    ListUnreadAt(bs[i := b], i);
    assert bs[i := b][..i] == bs[..i] && bs[i := b][i + 1..] == bs[i + 1..];
  }

  /** Only separators, counts or queues differ: the same ids are unread. */
  lemma {:induction false} ListUnreadSame(bs: seq<Branch>, cs: seq<Branch>)
    requires |bs| == |cs| && forall i :: 0 <= i < |bs| ==> BranchUnread(bs[i]) == BranchUnread(cs[i])
    ensures ListUnread(bs) == ListUnread(cs)
  {
    if |bs| > 0 {
      ListUnreadSame(bs[1..], cs[1..]);
    }
  }

  // ---------------------------------------------------------------- reading accounts

  /**
   * Every id read is charged once: the ids read so far and the ids not read
   * are never more than they were before.
   */
  ghost predicate Fair(l0: seq<Id>, u0: multiset<Id>, l1: seq<Id>, u1: multiset<Id>) {
    l0 <= l1 && multiset(l1) + u1 <= multiset(l0) + u0
  }

  lemma FairTrans(l0: seq<Id>, u0: multiset<Id>, l1: seq<Id>, u1: multiset<Id>, l2: seq<Id>, u2: multiset<Id>)
    requires Fair(l0, u0, l1, u1) && Fair(l1, u1, l2, u2)
    ensures Fair(l0, u0, l2, u2)
  {
  }

  lemma FairSame(l: seq<Id>, u: multiset<Id>, v: multiset<Id>)
    requires v <= u
    ensures Fair(l, u, l, v)
  {
  }

  /** Reading one id. */
  lemma FairRead(l: seq<Id>, id: Id, u: multiset<Id>, v: multiset<Id>)
    requires multiset{id} + v <= u
    ensures Fair(l, u, l + [id], v)
  {
  }

  /** What is fair for a part is fair for the whole. */
  lemma FairWithin(l0: seq<Id>, u0: multiset<Id>, l1: seq<Id>, u1: multiset<Id>, w0: multiset<Id>, w1: multiset<Id>)
    requires Fair(l0, u0, l1, u1) && w1 + u0 == w0 + u1
    ensures Fair(l0, w0, l1, w1)
  {
    var m0, m1 := multiset(l0), multiset(l1);
    forall x
      ensures (m1 + w1)[x] <= (m0 + w0)[x]
    {
      assert (m1 + u1)[x] <= (m0 + u0)[x];
      assert (w1 + u0)[x] == (w0 + u1)[x];
    }
  }

  // ---------------------------------------------------------------- stores that grow and shrink

  /** On these ids the stores agree. */
  ghost predicate Agree(s: Store, t: Store, ids: multiset<Id>) {
    forall i :: i in ids && i in s ==> i in t && t[i] == s[i]
  }

  lemma {:induction false} LinksStoredAgree(s: Store, t: Store, c: Overflow.Chain)
    requires LinksStored(s, c) && Agree(s, t, ChainIds(c))
    ensures LinksStored(t, c)
  {
    if c.Node? {
      assert c.id in ChainIds(c);
      LinksStoredAgree(s, t, c.next);
    }
  }

  lemma {:induction false} ListIdsHolds(bs: seq<Branch>, i: nat)
    requires i < |bs|
    ensures multiset{bs[i].id} + Ids(bs[i].child) <= ListIds(bs)
  {
    if i > 0 {
      ListIdsHolds(bs[1..], i - 1);
    }
  }

  /** A stored tree stays stored as long as none of its blocks is changed or deleted. */
  lemma {:induction false} BeneathAgree(s: Store, t: Store, n: Node)
    requires Beneath(s, n) && Agree(s, t, Ids(n))
    ensures Beneath(t, n)
    decreases n
  {
    match n
    case Leaf(l) => LinksStoredAgree(s, t, l.chain);
    case Internal(bs, _) =>
      forall i | 0 <= i < |bs|
        ensures bs[i].id in t && t[bs[i].id] == PageOf(bs[i].child) && Beneath(t, bs[i].child)
      {
        ListIdsHolds(bs, i);
        assert bs[i].id in multiset{bs[i].id} + Ids(bs[i].child);
        BeneathAgree(s, t, bs[i].child);
      }
  }

  /** All ids of a stored tree are in the store. */
  lemma {:induction false} ChainIdsIn(s: Store, c: Overflow.Chain, id: Id)
    requires LinksStored(s, c) && id in ChainIds(c)
    ensures id in s
  {
    if id != c.id {
      ChainIdsIn(s, c.next, id);
    }
  }

  lemma {:induction false} IdsIn(s: Store, n: Node, id: Id)
    requires Beneath(s, n) && id in Ids(n)
    ensures id in s
    decreases n
  {
    match n
    case Leaf(l) => ChainIdsIn(s, l.chain, id);
    case Internal(bs, _) =>
      var i := IdsAt(bs, id);
      if id != bs[i].id {
        IdsIn(s, bs[i].child, id);
      }
  }

  lemma {:induction false} IdsAt(bs: seq<Branch>, id: Id) returns (i: nat)
    requires id in ListIds(bs)
    ensures i < |bs| && (id == bs[i].id || id in Ids(bs[i].child))
  {
    if id == bs[0].id || id in Ids(bs[0].child) {
      i := 0;
    } else {
      var j := IdsAt(bs[1..], id);
      i := j + 1;
    }
  }
}
