/**
 * Overflow nodes as linked objects, edited in place.  A link whose count is
 * zero is empty, whatever node it still points to.
 */
module OverflowNodes {
  import opened Types
  import opened Splitting
  import Overflow

  class OverflowNode {
    const id: Id
    var values: seq<Value>
    var nextCount: nat
    var next: OverflowNode?
    ghost var Repr: set<object>

    /** No linked node is empty or linked twice, and every count is right. */
    ghost predicate Valid()
      reads this, Repr
      decreases Repr
    {
      && this in Repr
      && |values| > 0
      && (nextCount > 0 ==>
            && next != null && next in Repr && next.Repr <= Repr && this !in next.Repr
            && next.Valid() && nextCount == next.ItemCount())
    }

    function ItemCount(): nat
      reads this
    {
      nextCount + |values|
    }

    /** The chain that starts here, as a value. */
    ghost function Chain(): (r: Overflow.Chain)
      requires Valid()
      reads this, Repr
      ensures Overflow.Valid(r) && r.Node? && r.count == ItemCount()
      decreases Repr
    {
      Overflow.Node(ItemCount(), id, true, values, if nextCount == 0 then Overflow.End else next.Chain())
    }

    /** What a link to this node stands for; none, once its last value is gone. */
    ghost function Linked(): Overflow.Chain
      requires ItemCount() > 0 ==> Valid()
      reads this, Repr
    {
      if ItemCount() == 0 then Overflow.End else Chain()
    }

    constructor ()
      ensures values == [] && nextCount == 0 && next == null && id == 0 && Repr == {this}
    {
      id, values, nextCount, next := 0, [], 0, null;
      Repr := {this};
    }

    /** Takes the values of pairs that all have one key. */
    constructor FromPairs(pairs: seq<Pair>)
      requires |pairs| > 0 && forall i :: 0 <= i < |pairs| ==> pairs[i].key == pairs[0].key
      ensures Valid() && Repr == {this}
      ensures Chain() == Overflow.Node(|pairs|, 0, true, seq(|pairs|, i requires 0 <= i < |pairs| => pairs[i].value),
              Overflow.End)
    {
      id, values, nextCount, next := 0, [], 0, null;
      Repr := {this};
      new;
      for i := 0 to |pairs|
        invariant Repr == {this} && nextCount == 0
        invariant values == seq(i, j requires 0 <= j < i => pairs[j].value)
      {
        values := values + [pairs[i].value];
      }
    }

    method Append(item: Value)
      requires Valid()
      modifies this`values
      ensures Valid() && Chain() == Overflow.Append(old(Chain()), item)
    {
      ghost var behind := if nextCount == 0 then Overflow.End else next.Chain();
      values := values + [item];
      assert nextCount > 0 ==> next.Valid() && next.Chain() == behind;
    }

    /** Links a node behind this one; an empty node is not linked. */
    method SetNext(node: OverflowNode)
      requires |values| > 0 && this in Repr && this !in node.Repr && (node.ItemCount() > 0 ==> node.Valid())
      modifies this
      ensures Valid() && Repr == if node.ItemCount() > 0 then {this} + node.Repr else {this}
      ensures Chain() == Overflow.Node(|values| + Overflow.Count(old(node.Linked())), id, true, old(values),
              old(node.Linked()))
    {
      ghost var behind := node.Linked();
      next, nextCount := node, node.ItemCount();
      Repr := {this} + node.Repr;
      if nextCount == 0 {
        next, nextCount := null, 0;
        Repr := {this};
      }
      assert nextCount > 0 ==> next.Valid() && next.Chain() == behind;
    }

    /** overflowPull: the last value of the last node. */
    method Pull() returns (value: Value)
      requires Valid()
      modifies Repr
      ensures Repr <= old(Repr) && (ItemCount() > 0 ==> Valid())
      ensures (value, Linked()) == Overflow.Pull(old(Chain()))
      decreases Repr
    {
      if nextCount == 0 {
        value := Last(values);
        values := values[..|values| - 1];
        Repr := {this};
        return;
      }
      value := next.Pull();
      nextCount := next.ItemCount();
      Repr := {this} + if nextCount > 0 then next.Repr else {};
      assert nextCount > 0 ==> next.Valid();
    }

    /** Size of the page, and the first value that exceeds the block. */
    method Size(block: nat) returns (size: nat, splitIndex: nat)
      ensures size == OverflowSize(values)
      ensures TooBig(block, size) ==> splitIndex == OverflowSplit(block, values, 0, HEADER + LINK)
    {
      size := HEADER + LINK;
      assert values[..0] == [];
      for j := 0 to |values|
        invariant size == HEADER + LINK + ValuesSize(values[..j])
      {
        ValuesSizeConcat(values[..j], [values[j]]);
        assert values[..j + 1] == values[..j] + [values[j]] && [values[j]][1..] == [];
        size := size + |values[j]|;
      }
      assert values[..|values|] == values;
      splitIndex := 0;
      if TooBig(block, size) {
        var splitSize: nat := HEADER + LINK;
        while splitIndex < |values|
          invariant splitIndex <= |values|
          invariant OverflowSplit(block, values, splitIndex, splitSize)
                    == OverflowSplit(block, values, 0, HEADER + LINK)
        {
          splitSize := splitSize + |values[splitIndex]|;
          if splitSize > block { return; }
          splitIndex := splitIndex + 1;
        }
      }
    }

    /** pushDownOverflowNodeSize: what exceeds the block moves to the next node, which is made if there is none. */
    method PushDown(block: nat)
      requires Valid()
      modifies Repr
      ensures Valid() && fresh(Repr - old(Repr))
      ensures Chain() == Splitting.PushDown(block, old(Chain()))
      decreases |Overflow.Flat(Chain())|
    {
      hide Overflow.Flat, Overflow.Valid, Splitting.PushDown, OverflowSplit;
      ghost var c := Chain();
      var size, splitIndex := Size(block);
      PushDownTurn(block, c);
      if !TooBig(block, size) || splitIndex == 0 {
        return;
      }
      MoveOn(splitIndex);
      next.PushDown(block);
      PushDownKeeps(block, Moved(c, splitIndex));
      nextCount := next.ItemCount();
      Repr := {this} + next.Repr;
      assert next.Valid() && next.Chain() == Splitting.PushDown(block, Moved(c, splitIndex));
    }

    /** The values from position j on go to the back of the next node. */
    method MoveOn(j: nat)
      requires Valid() && 0 < j < |values|
      modifies Repr
      ensures values == old(values)[..j] && this in Repr && Repr == old(Repr)
      ensures next != null && next.Valid() && this !in next.Repr && next.Chain() == Moved(old(Chain()), j)
      ensures next.Repr <= old(Repr) || fresh(next.Repr)
    {
      hide Overflow.Valid;
      if nextCount == 0 {
        next := new OverflowNode();
      }
      var target: OverflowNode := next;
      ghost var behind := if target.nextCount == 0 then Overflow.End else target.next.Chain();
      ghost var before := target.values;
      assert values[j..j] == [];
      for i := j to |values|
        invariant target.values == before + values[j..i]
        modifies target`values
      {
        target.values := target.values + [values[i]];
        assert values[j..i + 1] == values[j..i] + [values[i]];
      }
      assert values[j..|values|] == values[j..];
      assert target.nextCount > 0 ==> target.next.Valid() && target.next.Chain() == behind;
      values := values[..j];
    }
  }

  /** One turn of pushing down, on values. */
  lemma PushDownTurn(block: nat, c: Overflow.Chain)
    requires c.Node? && Overflow.Valid(c)
    ensures !TooBig(block, OverflowSize(c.values)) ==> PushDown(block, c) == c
    ensures TooBig(block, OverflowSize(c.values)) ==>
              var j := OverflowSplit(block, c.values, 0, HEADER + LINK);
              && j < |c.values|
              && (j == 0 ==> PushDown(block, c) == c)
              && (j > 0 ==>
                    && |Overflow.Flat(Moved(c, j))| < |Overflow.Flat(c)|
                    && c.count == j + Overflow.Count(Moved(c, j))
                    && PushDown(block, c)
                      == Overflow.Node(c.count, c.id, c.loaded, c.values[..j], PushDown(block, Moved(c, j))))
  {
    if TooBig(block, OverflowSize(c.values)) {
      assert c.values[..0] == [];
      OverflowSplitStops(block, c.values, 0, HEADER + LINK);
      var j := OverflowSplit(block, c.values, 0, HEADER + LINK);
      if j > 0 {
        MovedIs(block, c, j);
        PushDownStep(block, c, j);
      }
    }
  }
}
