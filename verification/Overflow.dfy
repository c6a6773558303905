/**
 * The chain of overflow nodes behind a leaf.  A link whose count is zero is
 * the empty link End; `id` and `loaded` say where the node came from.
 */
module Overflow {
  import opened Types

  datatype Chain =
    | End
    | Node(count: nat, id: Id, loaded: bool, values: seq<Value>, next: Chain)

  function Count(c: Chain): nat {
    if c.End? then 0 else c.count
  }

  /** The values of the chain, first node first. */
  function Flat(c: Chain): seq<Value> {
    if c.End? then [] else c.values + Flat(c.next)
  }

  /** Every link counts the values below it, and no linked node is empty. */
  ghost predicate Valid(c: Chain) {
    c.Node? ==> |c.values| > 0 && Valid(c.next) && c.count == |c.values| + Count(c.next)
  }

  lemma {:induction false} CountIsLength(c: Chain)
    requires Valid(c)
    ensures Count(c) == |Flat(c)|
    ensures c.Node? ==> Count(c) > 0
  {
    if c.Node? {
      CountIsLength(c.next);
    }
  }

  /** Appends to the first node, whatever follows it. */
  function Append(c: Chain, v: Value): Chain
    requires c.Node?
  {
    Node(|c.values| + 1 + Count(c.next), c.id, true, c.values + [v], c.next)
  }

  lemma AppendAdds(c: Chain, v: Value)
    requires c.Node? && Valid(c)
    ensures Valid(Append(c, v))
    ensures Flat(Append(c, v)) == c.values + [v] + Flat(c.next)
    ensures multiset(Flat(Append(c, v))) == multiset(Flat(c)) + multiset{v}
    ensures |Flat(Append(c, v))| == |Flat(c)| + 1
  {
  }

  /** Takes a value off the back of the last node; a node left empty is unlinked. */
  function Pull(c: Chain): (r: (Value, Chain))
    requires c.Node? && Valid(c)
  {
    if c.next.End? then
      (Last(c.values),
       if |c.values| == 1 then End
       else Node(|c.values| - 1, c.id, true, c.values[..|c.values| - 1], End))
    else
      var (v, rest) := Pull(c.next);
      (v, Node(|c.values| + Count(rest), c.id, true, c.values, rest))
  }

  lemma {:induction false} PullTakesLast(c: Chain)
    requires c.Node? && Valid(c)
    ensures var (v, rest) := Pull(c);
            && Valid(rest)
            && Flat(c) == Flat(rest) + [v]
            && multiset(Flat(c)) == multiset(Flat(rest)) + multiset{v}
  {
    var (v, rest) := Pull(c);
    if c.next.End? {
      assert c.values == c.values[..|c.values| - 1] + [v];
    } else {
      PullTakesLast(c.next);
    }
    assert Flat(c) == Flat(rest) + [v];
  }

  // ---------------------------------------------------------------- removal

  /** Position of the first occurrence, or the end. */
  function IndexOf(vs: seq<Value>, v: Value): (i: nat)
    ensures i <= |vs|
    ensures i < |vs| ==> vs[i] == v
    ensures i == |vs| <==> v !in vs
  {
    if |vs| == 0 || vs[0] == v then 0 else 1 + IndexOf(vs[1..], v)
  }

  function Without(vs: seq<Value>, i: nat): seq<Value>
    requires i < |vs|
  {
    vs[..i] + vs[i + 1..]
  }

  /**
   * What removing a value from the chain is meant to do: drop its first
   * occurrence, and refill a node that becomes empty from the nodes behind it.
   */
  function Remove(c: Chain, v: Value): Chain
    requires Valid(c)
  {
    if c.End? then End
    else
      var i := IndexOf(c.values, v);
      if i == |c.values| then
        var rest := Remove(c.next, v);
        Node(|c.values| + Count(rest), c.id, true, c.values, rest)
      else if |c.values| > 1 then
        Node(|c.values| - 1 + Count(c.next), c.id, true, Without(c.values, i), c.next)
      else if c.next.End? then End
      else
        var (w, rest) := Pull(c.next);
        Node(1 + Count(rest), c.id, true, [w], rest)
  }

  lemma WithoutDrops(vs: seq<Value>, i: nat)
    requires i < |vs|
    ensures multiset(vs) == multiset(Without(vs, i)) + multiset{vs[i]}
  {
    assert vs == vs[..i] + [vs[i]] + vs[i + 1..];
  }

  lemma DroppedBefore(a: seq<Value>, w: seq<Value>, v: Value, rest: seq<Value>)
    requires multiset(a) == multiset(w) + multiset{v}
    ensures multiset(w + rest) == multiset(a + rest) - multiset{v}
  {
  }

  /** The node loses its only value, and takes the last one of the nodes behind it. */
  lemma RemoveRefills(c: Chain, v: Value)
    requires c.Node? && Valid(c) && c.values == [v] && c.next.Node?
    ensures var (w, rest) := Pull(c.next);
            Remove(c, v) == Node(1 + Count(rest), c.id, true, [w], rest) && Valid(Remove(c, v))
            && multiset(Flat(Remove(c, v))) == multiset(Flat(c)) - multiset{v}
  {
    hide Pull, Flat;
    PullTakesLast(c.next);
    var (w, rest) := Pull(c.next);
    FlatIs(c);
    FlatIs(Remove(c, v));
  }

  lemma FlatIs(c: Chain)
    requires c.Node?
    ensures Flat(c) == c.values + Flat(c.next)
  {
  }

  lemma RemoveHere(c: Chain, v: Value)
    requires c.Node? && Valid(c) && v in c.values
    ensures Valid(Remove(c, v))
    ensures multiset(Flat(Remove(c, v))) == multiset(Flat(c)) - multiset{v}
  {
    hide IndexOf, Pull, Flat;
    var i := IndexOf(c.values, v);
    WithoutDrops(c.values, i);
    FlatIs(c);
    if |c.values| > 1 {
      FlatIs(Remove(c, v));
      DroppedBefore(c.values, Without(c.values, i), v, Flat(c.next));
    } else if c.next.Node? {
      assert c.values == [v];
      RemoveRefills(c, v);
    } else {
      assert c.values == [v];
      NothingFlat(c.next);
    }
  }

  lemma NothingFlat(c: Chain)
    requires c.End?
    ensures Flat(c) == []
  {
  }

  lemma {:induction false} RemoveDropsOne(c: Chain, v: Value)
    requires Valid(c)
    ensures Valid(Remove(c, v))
    ensures multiset(Flat(Remove(c, v))) == multiset(Flat(c)) - multiset{v}
  {
    hide IndexOf, Pull, Without;
    if c.Node? {
      if v in c.values {
        RemoveHere(c, v);
      } else {
        assert v !in multiset(c.values);
        RemoveDropsOne(c.next, v);
      }
    }
  }
}
