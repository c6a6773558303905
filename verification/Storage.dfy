/** The memory engine, the mutation record of a write, and its commit or abort. */
module Storage {
  import opened Types
  import opened Blocks

  datatype PutBlock = PutBlock(id: Id, page: Page, success: bool)

  datatype DelBlock = DelBlock(id: Id, success: bool)

  // ---------------------------------------------------------------- specifications

  /** The store after a list of puts. */
  function Put(store: Store, list: seq<PutBlock>): Store
    decreases |list|
  {
    if |list| == 0 then store else Put(store[list[0].id := list[0].page], list[1..])
  }

  /** The store after a list of deletes. */
  function Deleted(store: Store, ids: seq<Id>): Store {
    map i | i in store && i !in ids :: store[i]
  }

  /** The requests that find nothing to delete: those whose block is gone, or was asked for before. */
  function Missed(store: Store, ids: seq<Id>): seq<Id>
    decreases |ids|
  {
    if |ids| == 0 then []
    else if ids[0] in store then Missed(Deleted(store, [ids[0]]), ids[1..])
    else [ids[0]] + Missed(store, ids[1..])
  }

  function DelIds(list: seq<DelBlock>): (r: seq<Id>)
    ensures |r| == |list|
  {
    seq(|list|, i requires 0 <= i < |list| => list[i].id)
  }

  lemma {:induction false} PutIs(store: Store, list: seq<PutBlock>, i: Id)
    ensures i in store ==> i in Put(store, list)
    ensures (forall j :: 0 <= j < |list| ==> list[j].id != i) ==>
              (i in Put(store, list) <==> i in store) && (i in store ==> Put(store, list)[i] == store[i])
    decreases |list|
  {
    if |list| > 0 {
      PutIs(store[list[0].id := list[0].page], list[1..], i);
    }
  }

  /** With distinct ids every block put can be read back. */
  lemma {:induction false} PutHolds(store: Store, list: seq<PutBlock>, j: nat)
    requires j < |list| && forall a, b :: 0 <= a < b < |list| ==> list[a].id != list[b].id
    ensures list[j].id in Put(store, list) && Put(store, list)[list[j].id] == list[j].page
    decreases |list|
  {
    var s := store[list[0].id := list[0].page];
    if j == 0 {
      PutIs(s, list[1..], list[0].id);
    } else {
      PutHolds(s, list[1..], j - 1);
    }
  }

  lemma {:induction false} PutConcat(store: Store, a: seq<PutBlock>, b: seq<PutBlock>)
    ensures Put(store, a + b) == Put(Put(store, a), b)
    decreases |a|
  {
    if |a| == 0 {
      assert a + b == b;
    } else {
      assert (a + b)[1..] == a[1..] + b;
      PutConcat(store[a[0].id := a[0].page], a[1..], b);
    }
  }

  lemma DeletedStep(store: Store, ids: seq<Id>, id: Id)
    ensures Deleted(Deleted(store, ids), [id]) == Deleted(store, ids + [id])
  {
  }

  lemma DeletedNone(store: Store)
    ensures Deleted(store, []) == store
  {
  }

  // ---------------------------------------------------------------- the memory engine

  class Mem {
    var blocks: Store
    var counter: nat
    const maxBlockSize: nat
    const pageSize: Page -> nat

    constructor (maxBlockSize: nat, pageSize: Page -> nat)
      ensures blocks == map[] && counter == 0
      ensures this.maxBlockSize == maxBlockSize && this.pageSize == pageSize
    {
      blocks, counter := map[], 0;
      this.maxBlockSize, this.pageSize := maxBlockSize, pageSize;
    }

    /** No block has an id that is still to be given out. */
    ghost predicate Fresh()
      reads this
    {
      forall i :: i in blocks ==> i < counter
    }

    method NewId() returns (id: Id)
      modifies this`counter
      ensures id == old(counter) && counter == old(counter) + 1
    {
      id := counter;
      counter := counter + 1;
    }

    /** None stands for the exception thrown when there is no such block. */
    method Get(id: Id) returns (r: Option<Page>)
      ensures r == if id in blocks then Some(blocks[id]) else None
    {
      r := if id in blocks then Some(blocks[id]) else None;
    }

    method GetAll(ids: seq<Id>) returns (r: Option<Store>)
      ensures r.None? <==> exists i :: i in ids && i !in blocks
      ensures r.Some? ==> forall i :: i in r.value <==> i in ids
      ensures r.Some? ==> forall i :: i in ids ==> i in blocks && r.value[i] == blocks[i]
    {
      var found: Store := map[];
      for j := 0 to |ids|
        invariant forall i :: i in ids[..j] ==> i in blocks
        invariant forall i :: i in found <==> i in ids[..j]
        invariant forall i :: i in found ==> found[i] == blocks[i]
      {
        var page := Get(ids[j]);
        if page.None? {
          assert ids[j] in ids;
          return None;
        }
        found := found[ids[j] := page.value];
      }
      assert ids[..|ids|] == ids;
      r := Some(found);
    }

    predicate Fits(list: seq<PutBlock>)
    {
      forall j :: 0 <= j < |list| ==> pageSize(list[j].page) <= maxBlockSize
    }

    /** Puts blocks until one is too large; then the rest is not put, and an exception is thrown. */
    method PutAll(list: seq<PutBlock>) returns (done: seq<PutBlock>, thrown: bool)
      modifies this`blocks
      ensures |done| == |list| && forall j :: 0 <= j < |list| ==>
                done[j].id == list[j].id && done[j].page == list[j].page
      ensures thrown <==> !Fits(list)
      ensures !thrown ==> blocks == Put(old(blocks), list) && forall j :: 0 <= j < |list| ==> done[j].success
      ensures thrown ==> exists n: nat :: n < |list| && Fits(list[..n]) && blocks == Put(old(blocks), list[..n])
    {
      done := list;
      var j := 0;
      assert list[..0] == [];
      while j < |list|
        invariant j <= |list| && |done| == |list|
        invariant forall i :: 0 <= i < |list| ==> done[i].id == list[i].id && done[i].page == list[i].page
        invariant forall i :: 0 <= i < j ==> done[i].success
        invariant Fits(list[..j]) && blocks == Put(old(blocks), list[..j])
      {
        if pageSize(list[j].page) > maxBlockSize {
          return done, true;
        }
        assert list[..j + 1] == list[..j] + [list[j]];
        PutConcat(old(blocks), list[..j], [list[j]]);
        assert [list[j]][1..] == [];
        blocks := blocks[list[j].id := list[j].page];
        done := done[j := done[j].(success := true)];
        j := j + 1;
      }
      assert list[..|list|] == list;
      thrown := false;
    }

    /** Deletes what is there; a request succeeds when it finds its block. */
    method DelAll(ids: seq<DelBlock>) returns (done: seq<DelBlock>)
      modifies this`blocks
      ensures blocks == Deleted(old(blocks), DelIds(ids))
      ensures |done| == |ids|
      ensures forall j :: 0 <= j < |ids| ==>
                done[j].id == ids[j].id
                && (done[j].success <==> ids[j].success || (ids[j].id in old(blocks) && ids[j].id !in DelIds(ids[..j])))
    {
      done := ids;
      var j := 0;
      DeletedNone(blocks);
      assert DelIds(ids[..0]) == [];
      while j < |ids|
        invariant j <= |ids| && |done| == |ids|
        invariant blocks == Deleted(old(blocks), DelIds(ids[..j]))
        invariant forall i :: 0 <= i < |ids| ==> done[i].id == ids[i].id
        invariant forall i :: j <= i < |ids| ==> done[i] == ids[i]
        invariant forall i :: 0 <= i < j ==>
                    (done[i].success <==>
                      ids[i].success || (ids[i].id in old(blocks) && ids[i].id !in DelIds(ids[..i])))
      {
        assert DelIds(ids[..j + 1]) == DelIds(ids[..j]) + [ids[j].id];
        DeletedStep(old(blocks), DelIds(ids[..j]), ids[j].id);
        if ids[j].id in blocks {
          blocks := blocks - {ids[j].id};
          done := done[j := done[j].(success := true)];
        }
        assert blocks == Deleted(old(blocks), DelIds(ids[..j + 1]));
        j := j + 1;
      }
      assert ids[..|ids|] == ids;
    }
  }

  // ---------------------------------------------------------------- mutations

  class Mutation {
    var success: bool
    var newRootID: Option<Id>
    var createdIDs: seq<Id>
    var obsoleteIDs: seq<Id>

    constructor (root: Option<Id>)
      ensures success && newRootID == root && createdIDs == [] && obsoleteIDs == []
    {
      success, newRootID, createdIDs, obsoleteIDs := true, root, [], [];
    }

    /** The blocks to delete: the obsolete ones after a commit, the created ones otherwise. */
    function DeleteList(commit: bool): seq<Id>
      reads this
    {
      if commit && success then obsoleteIDs else createdIDs
    }

    method Fail()
      modifies this`success
      ensures !success
    {
      success := false;
    }

    method AddCreated(id: Id)
      modifies this`createdIDs
      ensures createdIDs == old(createdIDs) + [id]
    {
      createdIDs := createdIDs + [id];
    }

    method AddObsolete(id: Id)
      modifies this`obsoleteIDs
      ensures obsoleteIDs == old(obsoleteIDs) + [id]
    {
      obsoleteIDs := obsoleteIDs + [id];
    }
  }

  // ---------------------------------------------------------------- commit and abort

  /** Which requests miss, one more at a time. */
  lemma {:induction false} MissedStep(store: Store, ids: seq<Id>, id: Id)
    ensures Missed(store, ids + [id]) == Missed(store, ids) + if id in store && id !in ids then [] else [id]
    decreases |ids|
  {
    if |ids| == 0 {
      assert ids + [id] == [id];
      assert [id][1..] == [];
    } else {
      assert (ids + [id])[1..] == ids[1..] + [id];
      if ids[0] in store {
        MissedStep(Deleted(store, [ids[0]]), ids[1..], id);
      } else {
        MissedStep(store, ids[1..], id);
      }
      assert ids == [ids[0]] + ids[1..];
    }
  }

  lemma {:induction false} MissedAre(store: Store, ids: seq<Id>, id: Id)
    requires id in Missed(store, ids)
    ensures id in ids && (id !in store || exists a, b :: 0 <= a < b < |ids| && ids[a] == id == ids[b])
    decreases |ids|
  {
    if ids[0] in store {
      MissedAre(Deleted(store, [ids[0]]), ids[1..], id);
      if id == ids[0] {
        var b :| 0 <= b < |ids[1..]| && ids[1..][b] == id;
        assert ids[0] == id == ids[b + 1];
      } else if id in store {
        var a, b :| 0 <= a < b < |ids[1..]| && ids[1..][a] == id == ids[1..][b];
        assert ids[a + 1] == id == ids[b + 1];
      }
    } else if id != ids[0] {
      MissedAre(store, ids[1..], id);
      if id in store {
        var a, b :| 0 <= a < b < |ids[1..]| && ids[1..][a] == id == ids[1..][b];
        assert ids[a + 1] == id == ids[b + 1];
      }
    }
  }

  lemma MissedNotHere(store: Store, ids: seq<Id>, j: nat)
    requires j < |ids| && ids[j] in store && ids[j] !in ids[..j]
    ensures ids[j] !in Missed(store, ids[..j])
  {
    if ids[j] in Missed(store, ids[..j]) {
      MissedAre(store, ids[..j], ids[j]);
    }
  }

  /** Position of the first occurrence. */
  function IndexOf(ids: seq<Id>, id: Id): (i: nat)
    ensures i <= |ids| && (i < |ids| ==> ids[i] == id)
  {
    if |ids| == 0 || ids[0] == id then 0 else 1 + IndexOf(ids[1..], id)
  }

  lemma {:induction false} IndexBehind(a: seq<Id>, id: Id, rest: seq<Id>)
    requires id !in a
    ensures IndexOf(a + [id] + rest, id) == |a|
  {
    if |a| > 0 {
      assert (a + [id] + rest)[1..] == a[1..] + [id] + rest;
      assert a[0] in a;
      IndexBehind(a[1..], id, rest);
    } else {
      assert (a + [id] + rest)[0] == id;
    }
  }

  /** One request for every id, in order. */
  method Requests(ids: seq<Id>) returns (dels: seq<DelBlock>)
    ensures |dels| == |ids| && forall i :: 0 <= i < |ids| ==> dels[i] == DelBlock(ids[i], false)
  {
    dels := [];
    for j := 0 to |ids|
      invariant |dels| == j && forall i :: 0 <= i < j ==> dels[i] == DelBlock(ids[i], false)
    {
      dels := dels + [DelBlock(ids[j], false)];
    }
  }

  /** A request is answered by success exactly when it finds a block that was not asked for before. */
  ghost predicate Answers(store: Store, ids: seq<Id>, dels: seq<DelBlock>) {
    |dels| == |ids| && forall j :: 0 <= j < |ids| ==>
      dels[j].id == ids[j] && (dels[j].success <==> ids[j] in store && ids[j] !in ids[..j])
  }

  /** Erases the first occurrence. */
  method EraseFirst(ids: seq<Id>, id: Id, ghost kept: seq<Id>, ghost rest: seq<Id>) returns (r: seq<Id>)
    requires ids == kept + [id] + rest && id !in kept
    ensures r == kept + rest
  {
    TakenOut(kept, id, rest);
    var at := IndexOf(ids, id);
    r := ids[..at] + ids[at + 1..];
  }

  lemma NextId(ids: seq<Id>, kept: seq<Id>, j: nat)
    requires j < |ids|
    ensures ids[..j + 1] == ids[..j] + [ids[j]]
    ensures kept + ids[j..] == kept + [ids[j]] + ids[j + 1..]
  {
  }

  /** Takes the ids whose requests succeeded out of the list. */
  method Forget(ids: seq<Id>, dels: seq<DelBlock>, ghost store: Store) returns (left: seq<Id>, allDeleted: bool)
    requires Answers(store, ids, dels)
    ensures left == Missed(store, ids) && (allDeleted <==> left == [])
  {
    hide Missed, IndexOf;
    left := ids;
    allDeleted := true;
    MissedNone(store);
    for j := 0 to |dels|
      invariant left == Missed(store, ids[..j]) + ids[j..]
      invariant allDeleted <==> Missed(store, ids[..j]) == []
    {
      ghost var kept := Missed(store, ids[..j]);
      NextId(ids, kept, j);
      MissedStep(store, ids[..j], ids[j]);
      if dels[j].success {
        MissedNotHere(store, ids, j);
        left := EraseFirst(left, dels[j].id, kept, ids[j + 1..]);
      } else {
        allDeleted := false;
      }
    }
    assert ids[..|ids|] == ids;
  }

  lemma TakenOut(kept: seq<Id>, id: Id, rest: seq<Id>)
    requires id !in kept
    ensures var l := kept + [id] + rest;
            IndexOf(l, id) == |kept| && l[..|kept|] + l[|kept| + 1..] == kept + rest
  {
    IndexBehind(kept, id, rest);
  }

  lemma MissedNone(store: Store)
    ensures Missed(store, []) == []
  {
  }

  lemma Answered(store: Store, ids: seq<Id>, before: seq<DelBlock>, after: seq<DelBlock>)
    requires |before| == |ids| && forall i :: 0 <= i < |ids| ==> before[i] == DelBlock(ids[i], false)
    requires |after| == |ids| && forall j :: 0 <= j < |ids| ==>
               after[j].id == before[j].id
               && (after[j].success <==>
                   before[j].success || (before[j].id in store && before[j].id !in DelIds(before[..j])))
    ensures DelIds(before) == ids && Answers(store, ids, after)
  {
    forall j | 0 <= j < |ids|
      ensures DelIds(before[..j]) == ids[..j]
    {
    }
  }

  /**
   * finish_mutation: deletes the obsolete blocks after a commit, the created
   * ones after an abort, keeps in the list exactly the requests that found
   * nothing to delete, and reports whether there were none.
   */
  method FinishMutation(engine: Mem, mutation: Mutation, commit: bool) returns (allDeleted: bool)
    modifies engine`blocks, mutation`createdIDs, mutation`obsoleteIDs
    ensures engine.blocks == Deleted(old(engine.blocks), old(mutation.DeleteList(commit)))
    ensures mutation.DeleteList(commit) == Missed(old(engine.blocks), old(mutation.DeleteList(commit)))
    ensures commit && mutation.success ==> mutation.createdIDs == old(mutation.createdIDs)
    ensures !(commit && mutation.success) ==> mutation.obsoleteIDs == old(mutation.obsoleteIDs)
    ensures allDeleted <==> mutation.DeleteList(commit) == []
  {
    hide Missed, Deleted;
    var ids := mutation.DeleteList(commit);
    var dels := Requests(ids);
    ghost var store := engine.blocks;
    var done := engine.DelAll(dels);
    Answered(store, ids, dels, done);
    var left;
    left, allDeleted := Forget(ids, done, store);
    if commit && mutation.success {
      mutation.obsoleteIDs := left;
    } else {
      mutation.createdIDs := left;
    }
  }
}
