/** The internal node as an object: branches and queue, edited in place. */
module InternalNodes {
  import opened Types
  import opened Tree
  import opened Meaning

  class InternalNode {
    var branches: seq<Branch>
    var editQueue: seq<Edit>

    constructor (branches: seq<Branch>, editQueue: seq<Edit>)
      ensures Data() == Internal(branches, editQueue)
    {
      this.branches, this.editQueue := branches, editQueue;
    }

    function Data(): Node
      reads this
    {
      Internal(branches, editQueue)
    }

    /** What the branches store, and what the guaranteed edits will change. */
    method ItemCount() returns (count: int)
      ensures count == Meaning.ItemCount(Data())
    {
      hide BranchSum, GuaranteedDeltas;
      count := 0;
      NothingCounted(branches, editQueue);
      for i := 0 to |branches|
        invariant count + BranchSum(branches[i..]) == BranchSum(branches)
      {
        NextBranch(branches, i);
        count := count + branches[i].count;
      }
      for j := 0 to |editQueue|
        invariant count + GuaranteedDeltas(editQueue[j..]) == Meaning.ItemCount(Data())
      {
        NextEdit(editQueue, j);
        if editQueue[j].guaranteed {
          count := count + editQueue[j].Delta();
        }
      }
    }

    /** A child that was changed is put back, with the count it has now. */
    method SetBranch(i: nat, child: Node)
      requires i < |branches|
      modifies this`branches
      ensures branches == SetChild(old(branches), i, child)
    {
      branches := branches[i := branches[i].(child := child, loaded := true)];
      branches := branches[i := branches[i].(count := Meaning.ItemCount(child))];
    }

    /** FindInternalKey: the one branch whose range holds the key, in a node of any range that holds it. */
    method FindInternalKey(key: Key) returns (i: nat)
      requires |branches| > 0
      ensures i == Route(branches, key) && i < |branches|
      ensures forall lo, hi, j | 0 <= j < |branches| && Separators(branches, lo, hi) && Within(lo, hi, key) ::
                Within(Lo(branches, j, lo), Hi(branches, j, hi), key) <==> j == i
    {
      hide Separators, Within;
      forall lo, hi, j | 0 <= j < |branches| && Separators(branches, lo, hi) && Within(lo, hi, key)
        ensures Within(Lo(branches, j, lo), Hi(branches, j, hi), key) <==> j == Route(branches, key)
      {
        RouteIs(branches, lo, hi, key, j);
      }
      i := BranchLower(branches, key);
      if i == |branches| {
        i := i - 1;
      } else if branches[i].minKey.Some? {
        if i > 0 && branches[i].minKey.value != key {
          i := i - 1;
        }
      }
    }

    /** A shallow edit goes behind the queued edits of its key. */
    method Queue(e: Edit)
      modifies this`editQueue
      ensures Data() == Meaning.Apply(old(Data()), e, false)
    {
      var at := EditUpper(editQueue, e.key);
      editQueue := editQueue[..at] + [e] + editQueue[at..];
    }
  }

  lemma NothingCounted(bs: seq<Branch>, q: seq<Edit>)
    ensures BranchSum(bs[|bs|..]) == 0 && GuaranteedDeltas(q[|q|..]) == 0
    ensures bs[0..] == bs && q[0..] == q
  {
  }

  lemma NextBranch(bs: seq<Branch>, i: nat)
    requires i < |bs|
    ensures BranchSum(bs[i..]) == bs[i].count + BranchSum(bs[i + 1..])
  {
    assert bs[i..][1..] == bs[i + 1..];
  }

  lemma NextEdit(q: seq<Edit>, j: nat)
    requires j < |q|
    ensures GuaranteedDeltas(q[j..]) == (if q[j].guaranteed then q[j].Delta() else 0) + GuaranteedDeltas(q[j + 1..])
  {
    assert q[j..][1..] == q[j + 1..];
  }
}
