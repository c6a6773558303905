/**
 * Commit and abort with structural sharing: a commit deletes nothing the new
 * tree needs, and an abort leaves the store as it was.
 */
module Committing {
  import opened Types
  import opened Multimap
  import opened Tree
  import opened Meaning
  import opened Lookup
  import opened Sessions
  import opened Trust
  import opened Splitting
  import opened Flushing
  import opened Paging
  import opened Flags
  import opened Blocks
  import opened Storage
  import opened Collecting
  import opened Trees
  import W = Writing
  import Leaves
  import Overflow

  /** No block is reached in two ways. */
  ghost predicate Unshared(ids: multiset<Id>) {
    forall x :: ids[x] <= 1
  }

  lemma NotObsolete(obsolete: seq<Id>, unread: multiset<Id>, all: multiset<Id>, x: Id)
    requires multiset(obsolete) + unread <= all && Unshared(all) && x in unread
    ensures x !in obsolete
  {
    assert x in obsolete <==> x in multiset(obsolete);
    assert (multiset(obsolete) + unread)[x] <= all[x] <= 1;
  }

  /** Every block reachable from the new root is new, or was never read: none of them is obsolete. */
  lemma NewTreeKept(n: Node, c: nat, obsolete: seq<Id>, all: multiset<Id>)
    requires multiset(obsolete) + Unread(n) <= all && Unshared(all) && IdsUnder(all, c)
    ensures var (r, k) := Collected(n, c);
            forall x :: x in Ids(r) + multiset{k - 1} ==> x !in obsolete && (c <= x < k || x in Unread(n))
  {
    hide Unread, Ids, Collected, Span;
    var (r, k) := Collected(n, c);
    CollectedIds(n, c);
    forall x | x in Ids(r) + multiset{k - 1}
      ensures x !in obsolete && (c <= x < k || x in Unread(n))
    {
      SpanHolds(c, k, x);
      if x in Unread(n) {
        NotObsolete(obsolete, Unread(n), all, x);
      } else {
        assert c <= x < k;
        assert x in obsolete <==> x in multiset(obsolete);
        assert x in multiset(obsolete) ==> x in all;
      }
    }
  }

  /** After a commit the new tree can be read in full. */
  lemma CommitSafe(store: Store, n: Node, c: nat, obsolete: seq<Id>, all: multiset<Id>)
    requires Backed(store, n) && StoreUnder(store, c)
    requires multiset(obsolete) + Unread(n) <= all && Unshared(all) && IdsUnder(all, c)
    ensures var (r, k) := Collected(n, c);
            Stored(Deleted(Put(store, Puts(n, c)), obsolete), k - 1, r)
  {
    hide Backed, Beneath, Unread, Ids, Puts, Collected, PageOf;
    CollectedStored(store, n, c);
    StaysStored(Put(store, Puts(n, c)), n, c, obsolete, all);
  }

  lemma StaysStored(t: Store, n: Node, c: nat, obsolete: seq<Id>, all: multiset<Id>)
    requires multiset(obsolete) + Unread(n) <= all && Unshared(all) && IdsUnder(all, c)
    requires Stored(t, Collected(n, c).1 - 1, Collected(n, c).0)
    ensures Stored(Deleted(t, obsolete), Collected(n, c).1 - 1, Collected(n, c).0)
  {
    hide Beneath, Unread, Ids, Collected, PageOf;
    var (r, k) := Collected(n, c);
    NewTreeKept(n, c, obsolete, all);
    assert k - 1 in Ids(r) + multiset{k - 1};
    BeneathAgree(t, Deleted(t, obsolete), r);
  }

  /** The ids c, c + 1, ... */
  ghost predicate CountsFrom(ids: seq<Id>, c: nat) {
    forall j :: 0 <= j < |ids| ==> ids[j] == c + j
  }

  lemma CountedIn(ids: seq<Id>, c: nat, x: Id)
    requires CountsFrom(ids, c)
    ensures x in ids <==> c <= x < c + |ids|
  {
    if c <= x < c + |ids| {
      assert ids[x - c] == x;
    }
  }

  /** After an abort the store is what it was: the old tree can be read in full. */
  lemma AbortSafe(store: Store, n: Node, c: nat, created: seq<Id>)
    requires StoreUnder(store, c) && CountsFrom(created, c) && c + |created| == Collected(n, c).1
    ensures Deleted(Put(store, Puts(n, c)), created) == store
    ensures Missed(Put(store, Puts(n, c)), created) == []
  {
    hide Collected, Puts, CountsFrom, Missed;
    PutsIds(n, c);
    var list := Puts(n, c);
    var t := Put(store, list);
    forall i
      ensures i in Deleted(t, created) <==> i in store
      ensures i in store ==> t[i] == store[i]
    {
      PutIs(store, list, i);
      CountedIn(created, c, i);
      if i in t && i !in store {
        PutFrom(store, list, i);
      }
    }
    assert Deleted(t, created).Keys == store.Keys;
    CreatedThere(store, list, c, created);
  }

  lemma CreatedThere(store: Store, list: seq<PutBlock>, c: nat, created: seq<Id>)
    requires CountsFrom(created, c) && Consecutive(list, c, c + |created|)
    ensures Missed(Put(store, list), created) == []
  {
    forall x | x in created
      ensures x in Put(store, list)
    {
      var j :| 0 <= j < |created| && created[j] == x;
      PutHolds(store, list, j);
    }
    forall x
      ensures multiset(created)[x] <= 1
    {
      OnceOnly(created, c, x);
    }
    NothingMissed(Put(store, list), created);
  }

  lemma {:induction false} OnceOnly(ids: seq<Id>, c: nat, x: Id)
    requires CountsFrom(ids, c)
    ensures multiset(ids)[x] <= 1
    decreases |ids|
  {
    if |ids| > 0 {
      assert ids == [ids[0]] + ids[1..];
      OnceOnly(ids[1..], c + 1, x);
      CountedIn(ids[1..], c + 1, x);
      assert x in ids[1..] <==> x in multiset(ids[1..]);
    }
  }

  lemma {:induction false} PutFrom(store: Store, list: seq<PutBlock>, i: Id)
    requires i in Put(store, list) && i !in store
    ensures exists j :: 0 <= j < |list| && list[j].id == i
  {
    PutIs(store, list, i);
  }

  /** The blocks read are all there to be deleted, each once. */
  lemma {:induction false} NothingMissed(store: Store, ids: seq<Id>)
    requires forall x :: x in ids ==> x in store
    requires forall x :: multiset(ids)[x] <= 1
    ensures Missed(store, ids) == []
    decreases |ids|
  {
    if |ids| > 0 {
      assert ids == [ids[0]] + ids[1..];
      assert ids[0] in ids;
      forall x
        ensures multiset(ids[1..])[x] <= 1
      {
        assert multiset(ids)[x] == multiset{ids[0]}[x] + multiset(ids[1..])[x];
      }
      forall x | x in ids[1..]
        ensures x in Deleted(store, [ids[0]])
      {
        assert x in ids && x in multiset(ids[1..]);
        assert multiset(ids)[x] == multiset{ids[0]}[x] + multiset(ids[1..])[x];
      }
      NothingMissed(Deleted(store, [ids[0]]), ids[1..]);
    }
  }

  lemma AllThere(store: Store, puts: seq<PutBlock>, obsolete: seq<Id>, all: multiset<Id>)
    requires multiset(obsolete) <= all && Unshared(all) && forall x :: x in all ==> x in store
    ensures Missed(Put(store, puts), obsolete) == []
  {
    forall x | x in obsolete
      ensures x in Put(store, puts)
    {
      assert x in multiset(obsolete) && x in all;
      PutIs(store, puts, x);
    }
    forall x
      ensures multiset(obsolete)[x] <= 1
    {
      assert multiset(obsolete)[x] <= all[x];
    }
    NothingMissed(Put(store, puts), obsolete);
  }

  /** The ids of the tree that was opened are in the store, and older than every new one. */
  lemma OriginIn(store: Store, id: Id, n: Node, c: nat)
    requires Stored(store, id, n) && StoreUnder(store, c)
    ensures IdsUnder(multiset{id} + Ids(n), c)
    ensures forall x :: x in multiset{id} + Ids(n) ==> x in store
  {
    hide Beneath, Ids;
    forall x | x in multiset{id} + Ids(n)
      ensures x in store && x < c
    {
      if x in Ids(n) { IdsIn(store, n, x); }
    }
  }

  /**
   * Write and finish: after a commit the new tree, which differs from the
   * flushed one in ids only, is stored in full and every obsolete block is
   * gone; after an abort the store is as before the write.
   */
  method WriteAndFinish(tree: TreeImpl, commit: bool) returns (finished: Option<bool>)
    requires tree.Valid() && tree.root.Some? && Unshared(tree.OriginIds())
    requires Flushable(tree.cfg, tree.root.value, None, None) && W.Write(tree.cfg, tree.root.value).Some?
    requires tree.originID.Some? ==> Stored(tree.engine.blocks, tree.originID.value, tree.origin)
    modifies tree, tree.engine
    ensures finished.None? <==>
              !tree.engine.Fits(Puts(W.Write(tree.cfg, old(tree.root).value).value, old(tree.engine.counter)))
    ensures finished.Some? ==> finished.value
    ensures finished.Some? && commit ==>
              && tree.rootID.Some? && tree.root.Some?
              && Stored(tree.engine.blocks, tree.rootID.value, tree.root.value)
              && Like(W.Write(tree.cfg, old(tree.root).value).value, tree.root.value)
              && forall x :: x in tree.loadedIDs ==> x !in tree.engine.blocks
    ensures finished.Some? && !commit ==> tree.engine.blocks == old(tree.engine.blocks)
  {
    hide Backed, Beneath, Unread, Ids, Puts, Collected, PageOf, Flushable, Stored, Like, Missed;
    ghost var store, c := tree.engine.blocks, tree.engine.counter;
    ghost var n := W.Write(tree.cfg, tree.root.value).value;
    ghost var all := tree.OriginIds();
    if tree.originID.Some? {
      OriginIn(store, tree.originID.value, tree.origin, c);
    }
    var m := tree.Write();
    if m.None? {
      return None;
    }
    if commit {
      AllThere(store, Puts(n, c), tree.loadedIDs, all);
      StaysStored(Put(store, Puts(n, c)), n, c, tree.loadedIDs, all);
      CollectedLike(n, c);
    } else {
      AbortSafe(store, n, c, m.value.createdIDs);
    }
    var ok := FinishMutation(tree.engine, m.value, commit);
    finished := Some(ok);
  }

  // ---------------------------------------------------------------- trees as they are opened

  lemma {:induction false} IdCounted(bs: seq<Branch>, i: nat)
    requires i < |bs|
    ensures bs[i].id in ListIds(bs)
  {
    ListIdsHolds(bs, i);
    assert bs[i].id in multiset{bs[i].id} + Ids(bs[i].child);
  }

  lemma {:induction false} TwiceCounted(bs: seq<Branch>, i: nat, j: nat)
    requires i < j < |bs| && bs[i].id == bs[j].id
    ensures ListIds(bs)[bs[i].id] >= 2
  {
    if i == 0 {
      IdCounted(bs[1..], j - 1);
    } else {
      TwiceCounted(bs[1..], i - 1, j - 1);
    }
  }

  lemma UnsharedPart(a: multiset<Id>, b: multiset<Id>)
    requires Unshared(b) && a <= b
    ensures Unshared(a)
  {
  }

  /** Without sharing inside a tree, siblings have different ids. */
  lemma {:induction false} UnsharedDistinct(n: Node)
    requires Unshared(Ids(n))
    ensures DistinctIds(n)
    decreases n
  {
    if n.Internal? {
      var bs := n.branches;
      forall i, j | 0 <= i < j < |bs|
        ensures bs[i].id != bs[j].id
      {
        if bs[i].id == bs[j].id { TwiceCounted(bs, i, j); }
      }
      forall i | 0 <= i < |bs|
        ensures DistinctIds(bs[i].child)
      {
        ListIdsHolds(bs, i);
        UnsharedPart(Ids(bs[i].child), ListIds(bs));
        UnsharedDistinct(bs[i].child);
      }
    }
  }

  lemma {:induction false} ManyDistinct(n: Node, es: seq<Edit>, deep: bool)
    requires DistinctIds(n)
    ensures DistinctIds(ApplyMany(n, es, deep))
    decreases |es|
  {
    hide DistinctIds;
    if |es| > 0 {
      ApplyDistinct(n, es[0], deep);
      ManyDistinct(Meaning.Apply(n, es[0], deep), es[1..], deep);
    }
  }

  lemma PushDistinct(n: Node, i: nat, lo: Option<Key>, hi: Option<Key>, deep: bool)
    requires n.Internal? && i < |n.branches| && DistinctIds(n)
    ensures DistinctIds(Push(n, i, lo, hi, deep))
  {
    var q := n.queue;
    var es := Between(q, PendFrom(q, ForkLo(n.branches, i, lo)), PendTo(q, ForkHi(n.branches, i, hi)));
    ManyDistinct(n.branches[i].child, es, deep);
  }

  lemma {:induction false} FindDistinct(n: Node, key: Option<Key>, lo: Option<Key>, hi: Option<Key>)
    requires DistinctIds(n)
    ensures DistinctIds(Find(n, key, lo, hi))
    decreases Height(n)
  {
    hide Push, Route;
    if n.Internal? && |n.branches| > 0 {
      var i := if key.Some? then Route(n.branches, key.value) else 0;
      var p := Push(n, i, lo, hi, false);
      PushDistinct(n, i, lo, hi, false);
      PushedHeight(n, i, lo, hi, false);
      ChildHeight(p, i);
      FindDistinct(p.branches[i].child, key, ForkLo(n.branches, i, lo), ForkHi(n.branches, i, hi));
    }
  }

  lemma {:induction false} RunDistinct(n: Node, calls: seq<Call>)
    requires DistinctIds(n)
    ensures DistinctIds(Run(n, calls).0)
    decreases |calls|
  {
    hide DistinctIds;
    if |calls| > 0 {
      match calls[0] {
        case Change(e) => ApplyDistinct(n, e, false);
        case Query(k) => FindDistinct(n, Some(k), None, None);
      }
      RunDistinct(Exec(n, calls[0]).0, calls[1..]);
    }
  }

  /** A tree that was opened, edited and queried meets what the objects ask for. */
  lemma OpenedFlushable(cfg: Config, n: Node, calls: seq<Call>)
    requires Ordered(n, None, None) && Parsed(n) && Unshared(Ids(n))
    requires W.Writable(cfg, Run(n, calls).0)
    ensures Flushable(cfg, Run(n, calls).0, None, None)
  {
    hide Run, Flush, FlushOK, Passable, DistinctIds, Ids, Ordered, Parsed;
    UnsharedDistinct(n);
    RunDistinct(n, calls);
    RunOrdered(n, calls);
    FlushPasses(cfg, Run(n, calls).0, None, None);
  }
}
