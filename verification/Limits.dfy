/**
 * Where the code does not do what is meant, and exactly when it does: the bulk
 * merge on a leaf with an overflow chain, and the erase loop of an overflow node.
 */
module Limits {
  import opened Types
  import opened Multimap
  import opened Tree
  import opened Merging
  import Leaves
  import Overflow

  // ---------------------------------------------------------------- applyAll on a leaf with a chain

  /** What applyAll leaves: merged pairs, and the chain as it was. */
  function Raw(l: Leaves.Valid, es: seq<Edit>): Leaves.LeafData {
    Leaves.LeafData(Merge(l.pairs, es), l.chain)
  }

  /** The merge of one edit is one step of the reference at every key. */
  ghost predicate RawStep(l: Leaves.Valid, e: Edit) {
    forall k :: StepsOn(e, Leaves.LeafBag(l, k), Leaves.LeafBag(Raw(l, [e]), k), k)
  }

  /** The last key stands in more than one pair. */
  predicate Several(ps: seq<Pair>) {
    |ps| > 1 && ps[|ps| - 2].key == ps[|ps| - 1].key
  }

  /** A removal finds a pair to take. */
  predicate Takes(ps: seq<Pair>, e: Edit) {
    e.op == REMOVE_KEY || (e.op == REMOVE_KV && Pair(e.key, e.value) in ps)
  }

  /** The edit neither moves the chain to another key, nor has to look into it. */
  predicate Clear(l: Leaves.Valid, e: Edit)
    requires |l.pairs| > 0
  {
    var last := Last(l.pairs);
    if e.key < last.key then true
    else if e.key > last.key then e.op == REMOVE_KEY || e.op == REMOVE_KV
    else if e.op == INSERT || e.op == UPSERT then true
    else if Takes(l.pairs, e) then Several(l.pairs)
    else e.value !in Overflow.Flat(l.chain)
  }

  lemma MergeSteps(l: Leaves.Valid, e: Edit, k: Key)
    ensures StepsOn(e, Bag(l.pairs, k), Bag(Merge(l.pairs, [e]), k), k)
  {
    hide Merge, Bag, Step;
    MergeRefines(l.pairs, [e], k);
    EditsOnOne(e, k);
    if k == e.key {
      StepsOne(e, Bag(l.pairs, k), Bag(Merge(l.pairs, [e]), k));
    }
  }

  /** Pairs at or below the edit's key are copied first. */
  lemma {:induction false} Copied(u: seq<Pair>, c: seq<Pair>, e: Edit)
    requires e.op != INSERT && forall i :: 0 <= i < |c| ==> c[i].key <= e.key
    ensures MergeFrom(u, c, [e]) == Modify(u + c, e)
    decreases |c|
  {
    hide Modify;
    if |c| == 0 {
      assert u + c == u;
      assert MergeFrom(u, c, [e]) == MergeFrom(Modify(u, e), [], []);
    } else {
      assert MergeFrom(u, c, [e]) == MergeFrom(u + [c[0]], c[1..], [e]);
      Copied(u + [c[0]], c[1..], e);
      assert (u + [c[0]]) + c[1..] == u + c;
    }
  }

  /** An insert goes before the pairs of its key. */
  lemma {:induction false} Added(u: seq<Pair>, c: seq<Pair>, e: Edit)
    requires e.op == INSERT
    ensures var s := LowerBound(c, e.key);
            MergeFrom(u, c, [e]) == u + c[..s] + [Pair(e.key, e.value)] + c[s..]
    decreases |c|
  {
    var p := Pair(e.key, e.value);
    if |c| == 0 || e.key <= c[0].key {
      assert u + c[..0] + [p] == u + [p] && c[0..] == c && [e][1..] == [];
      assert MergeFrom(u, c, [e]) == MergeFrom(u + [p], c, []);
      CopiesAll(u + [p], c);
    } else {
      var s := LowerBound(c[1..], e.key);
      assert MergeFrom(u, c, [e]) == MergeFrom(u + [c[0]], c[1..], [e]);
      Added(u + [c[0]], c[1..], e);
      assert (u + [c[0]]) + c[1..][..s] == u + c[..s + 1] && c[1..][s..] == c[s + 1..];
    }
  }

  lemma {:induction false} CopiesAll(u: seq<Pair>, c: seq<Pair>)
    ensures MergeFrom(u, c, []) == u + c
    decreases |c|
  {
    if |c| == 0 {
      assert u + c == u;
    } else {
      CopiesAll(u + [c[0]], c[1..]);
      assert (u + [c[0]]) + c[1..] == u + c;
    }
  }

  /** Below the last key the merge keeps the last pair, and so the chain. */
  lemma RawBelow(l: Leaves.Valid, e: Edit)
    requires l.chain.Node? && e.key < Last(l.pairs).key
    ensures RawStep(l, e)
  {
    hide Merge, Bag, Step;
    forall k
      ensures StepsOn(e, Leaves.LeafBag(l, k), Leaves.LeafBag(Raw(l, [e]), k), k)
    {
      MergeSteps(l, e, k);
      MergeFromLast([], l.pairs, [e]);
      assert Merge(l.pairs, [e]) == MergeFrom([], l.pairs, [e]) by { MergeIs(l.pairs, [e]); }
      SameChain(l, Raw(l, [e]), k);
      assert k == e.key ==> Leaves.ChainBag(l, k) == multiset{};
      NoChainAdds(Bag(l.pairs, k), Bag(Merge(l.pairs, [e]), k));
    }
  }

  lemma MergeIs(ps: seq<Pair>, es: seq<Edit>)
    ensures Merge(ps, es) == MergeFrom([], ps, es)
  {
  }

  lemma SameChain(l: Leaves.Valid, r: Leaves.LeafData, k: Key)
    requires |l.pairs| > 0 && |r.pairs| > 0 && Last(l.pairs).key == Last(r.pairs).key && l.chain == r.chain
    ensures Leaves.ChainBag(l, k) == Leaves.ChainBag(r, k)
  {
  }

  lemma NoChainAdds(b: Values, c: Values)
    ensures b + multiset{} == b && c + multiset{} == c
  {
  }

  lemma ChainFull(l: Leaves.Valid)
    requires l.chain.Node?
    ensures |l.pairs| > 0 && Overflow.Flat(l.chain) != []
    ensures multiset(Overflow.Flat(l.chain)) != multiset{}
  {
    Overflow.CountIsLength(l.chain);
    var f := Overflow.Flat(l.chain);
    assert f[0] in multiset(f);
  }

  /** Behind the last key: an addition takes the chain along to its own key; a removal finds nothing. */
  lemma RawAbove(l: Leaves.Valid, e: Edit)
    requires l.chain.Node? && e.key > Last(l.pairs).key
    ensures RawStep(l, e) <==> e.op == REMOVE_KEY || e.op == REMOVE_KV
  {
    hide Merge, RawStep, Modify;
    MergedAbove(l.pairs, e);
    if e.op == INSERT || e.op == UPSERT {
      ChainMoves(l, e);
    } else {
      RemovesNothing(l, e);
    }
  }

  lemma MergedAbove(ps: seq<Pair>, e: Edit)
    requires |ps| > 0 && Sorted(ps) && e.key > Last(ps).key
    ensures e.op == INSERT || e.op == UPSERT ==> Merge(ps, [e]) == ps + [Pair(e.key, e.value)]
    ensures e.op == REMOVE_KEY || e.op == REMOVE_KV ==> Merge(ps, [e]) == Modify(ps, e)
  {
    hide MergeFrom, LowerBound, Modify;
    assert [] + ps == ps;
    if e.op == INSERT {
      Added([], ps, e);
      BoundBehind(ps, e.key);
      assert ps[|ps|..] == [] && ps + [Pair(e.key, e.value)] + [] == ps + [Pair(e.key, e.value)];
    } else {
      Copied([], ps, e);
      HitsNoneBehind(ps, e);
    }
  }

  lemma BoundBehind(ps: seq<Pair>, k: Key)
    requires |ps| > 0 && Sorted(ps) && k > Last(ps).key
    ensures LowerBound(ps, k) == |ps| && [] + ps[..|ps|] == ps
  {
    hide LowerBound;
    assert forall i :: 0 <= i < |ps| ==> ps[i].key <= Last(ps).key;
    if LowerBound(ps, k) < |ps| {
      assert false;
    }
  }

  lemma HitsNoneBehind(ps: seq<Pair>, e: Edit)
    requires |ps| > 0 && e.key > Last(ps).key && e.op != INSERT
    ensures Modify(ps, e) == if e.op == UPSERT then ps + [Pair(e.key, e.value)] else ps
  {
  }

  lemma ChainMoves(l: Leaves.Valid, e: Edit)
    requires l.chain.Node? && e.key > Last(l.pairs).key
    requires Merge(l.pairs, [e]) == l.pairs + [Pair(e.key, e.value)]
    ensures !RawStep(l, e)
  {
    hide Merge;
    var z := Last(l.pairs).key;
    ChainFull(l);
    BagConcat(l.pairs, [Pair(e.key, e.value)], z);
    BagOfOne(Pair(e.key, e.value), z);
    assert Leaves.ChainBag(Raw(l, [e]), z) == multiset{};
    var f := Overflow.Flat(l.chain);
    assert f[0] in multiset(f);
    assert Leaves.LeafBag(l, z) == Leaves.LeafBag(Raw(l, [e]), z) + multiset(f);
    assert Leaves.LeafBag(l, z)[f[0]] == Leaves.LeafBag(Raw(l, [e]), z)[f[0]] + multiset(f)[f[0]];
    assert !StepsOn(e, Leaves.LeafBag(l, z), Leaves.LeafBag(Raw(l, [e]), z), z);
  }

  lemma RemovesNothing(l: Leaves.Valid, e: Edit)
    requires l.chain.Node? && e.key > Last(l.pairs).key && (e.op == REMOVE_KEY || e.op == REMOVE_KV)
    requires Merge(l.pairs, [e]) == Modify(l.pairs, e)
    ensures RawStep(l, e)
  {
    hide Merge, Bag;
    assert Modify(l.pairs, e) == l.pairs;
    assert Raw(l, [e]) == l;
    BagEmpty(l.pairs, e.key);
    forall k
      ensures StepsOn(e, Leaves.LeafBag(l, k), Leaves.LeafBag(l, k), k)
    {
      if k == e.key {
        assert Leaves.LeafBag(l, k) == multiset{};
        assert multiset{} - multiset{e.value} == multiset{};
      }
    }
  }

  // -- at the last key

  lemma RawAddsAt(l: Leaves.Valid, e: Edit)
    requires l.chain.Node? && e.key == Last(l.pairs).key && e.op == INSERT
    ensures RawStep(l, e)
  {
    hide Merge, Bag, MergeFrom;
    var ps, p, s := l.pairs, Pair(e.key, e.value), LowerBound(l.pairs, e.key);
    MergeIs(ps, [e]);
    Added([], ps, e);
    assert [] + ps[..s] == ps[..s] && s < |ps|;
    forall k
      ensures StepsOn(e, Leaves.LeafBag(l, k), Leaves.LeafBag(Raw(l, [e]), k), k)
    {
      BagInsertAt(ps, s, p, k);
      SameChain(l, Raw(l, [e]), k);
      AddedInside(Bag(ps, k), One(p, k), Leaves.ChainBag(l, k));
    }
  }

  lemma AddedInside(b: Values, x: Values, d: Values)
    ensures (b + x) + d == (b + d) + x
    ensures x == multiset{} ==> b + x == b
  {
  }

  lemma AddInside(x: Values, v: Value, d: Values)
    ensures (x + multiset{v}) + d == (x + d) + multiset{v}
  {
  }

  lemma TakeInside(x: Values, v: Value, d: Values)
    requires v in x || v !in d
    ensures (x - multiset{v}) + d == (x + d) - multiset{v}
    ensures v in x ==> v in x + d
  {
  }

  /** A step on some of a key's values is a step on all of them, if it finds what it is meant for. */
  lemma StepInside(e: Edit, x: Values, y: Values, d: Values)
    requires Step(e, x, y)
    requires if e.op == REMOVE_KV then e.value in x || e.value !in d else e.op == INSERT || x != multiset{}
    ensures Step(e, x + d, y + d)
  {
    match e.op
    case INSERT => AddInside(x, e.value, d);
    case UPSERT =>
      var v :| v in x && y == x - multiset{v} + multiset{e.value};
      TakeInside(x, v, d);
      AddInside(x - multiset{v}, e.value, d);
    case REMOVE_KEY =>
      var v :| v in x && y == x - multiset{v};
      TakeInside(x, v, d);
    case REMOVE_KV => TakeInside(x, e.value, d);
  }

  lemma HitTakes(ps: seq<Pair>, e: Edit)
    requires |ps| > 0 && Sorted(ps) && e.key == Last(ps).key && (e.op == REMOVE_KEY || e.op == REMOVE_KV)
    ensures LastHit(ps, e, |ps|) >= 0 <==> Takes(ps, e)
  {
    hide LastHit;
    var i := LastHit(ps, e, |ps|);
    if i < 0 {
      LastHitMisses(ps, e, |ps|);
      assert !Hits(e, Last(ps));
    } else {
      assert ps[i] in ps && (e.op == REMOVE_KV ==> ps[i] == Pair(e.key, e.value));
    }
  }

  /** Whether a pair of the last key is left. */
  lemma ModifiedLast(ps: seq<Pair>, e: Edit)
    requires |ps| > 0 && Sorted(ps) && e.key == Last(ps).key && e.op != INSERT
    ensures var r := Modify(ps, e);
            |r| > 0 && Last(r).key == e.key <==> e.op == UPSERT || !Takes(ps, e) || Several(ps)
  {
    hide LastHit, Sorted, Takes, Several, Hits;
    var i := LastHit(ps, e, |ps|);
    if e.op == UPSERT {
      LastHitOnly(ps, e);
    } else {
      HitTakes(ps, e);
      if i >= 0 {
        LeftAtLast(ps, i);
      }
    }
  }

  /** Taking one pair of the last key leaves another if and only if there was one. */
  lemma LeftAtLast(ps: seq<Pair>, i: nat)
    requires i < |ps| && Sorted(ps) && ps[i].key == Last(ps).key
    ensures var r := ps[..i] + ps[i + 1..]; |r| > 0 && Last(r).key == Last(ps).key <==> Several(ps)
  {
    var r := ps[..i] + ps[i + 1..];
    if i < |ps| - 1 {
      assert ps[i].key <= ps[|ps| - 2].key;
      assert Last(r) == Last(ps);
    } else {
      assert r == ps[..|ps| - 1];
    }
  }

  lemma LastHitOnly(ps: seq<Pair>, e: Edit)
    requires |ps| > 0 && e.key == Last(ps).key && e.op == UPSERT
    ensures LastHit(ps, e, |ps|) == |ps| - 1
  {
  }

  /** A merge that keeps the chain with its key is a step there, if it finds what it is meant for. */
  lemma RawKeepsAt(l: Leaves.Valid, e: Edit)
    requires l.chain.Node? && e.key == Last(l.pairs).key && e.op != INSERT && Merge(l.pairs, [e]) == Modify(l.pairs, e)
    requires var r := Modify(l.pairs, e); |r| > 0 && Last(r).key == e.key
    requires e.op == UPSERT || Takes(l.pairs, e)
    ensures RawStep(l, e)
  {
    hide Merge, Bag, Step, Modify;
    var ps := l.pairs;
    forall k
      ensures StepsOn(e, Leaves.LeafBag(l, k), Leaves.LeafBag(Raw(l, [e]), k), k)
    {
      MergeSteps(l, e, k);
      SameChain(l, Raw(l, [e]), k);
      if k == e.key {
        BagHolds(ps, k, e.value);
        BagEmpty(ps, k);
        assert Last(ps).key == k;
        StepInside(e, Bag(ps, k), Bag(Merge(ps, [e]), k), Leaves.ChainBag(l, k));
      } else {
        NoChainAdds(Bag(ps, k), Bag(Merge(ps, [e]), k));
      }
    }
  }

  /** Removing the only pair of the last key leaves the chain to another key, or to none. */
  lemma RawRemovesAt(l: Leaves.Valid, e: Edit)
    requires l.chain.Node? && e.key == Last(l.pairs).key && (e.op == REMOVE_KEY || e.op == REMOVE_KV)
    requires Merge(l.pairs, [e]) == Modify(l.pairs, e) && Takes(l.pairs, e) && !Several(l.pairs)
    ensures !RawStep(l, e)
  {
    hide Merge, Leaves.LeafBag, Step, Modify;
    WithoutLast(l, e);
    LastAndChain(l);
    if RawStep(l, e) {
      var b, c := Leaves.LeafBag(l, e.key), Leaves.LeafBag(Raw(l, [e]), e.key);
      assert StepsOn(e, b, c, e.key);
      RemovesOne(e, b, c);
    }
  }

  lemma WithoutLast(l: Leaves.Valid, e: Edit)
    requires l.chain.Node? && e.key == Last(l.pairs).key && (e.op == REMOVE_KEY || e.op == REMOVE_KV)
    requires Takes(l.pairs, e) && !Several(l.pairs)
    ensures Leaves.LeafBag(Leaves.LeafData(Modify(l.pairs, e), l.chain), e.key) == multiset{}
  {
    hide Bag, LastHit;
    var ps, n := l.pairs, |l.pairs| - 1;
    HitTakes(ps, e);
    assert LastHit(ps, e, |ps|) == n;
    assert ps[..n] + ps[n + 1..] == ps[..n];
    BagEmpty(ps[..n], e.key);
  }

  lemma RemovesOne(e: Edit, b: Values, c: Values)
    requires (e.op == REMOVE_KEY || e.op == REMOVE_KV) && Step(e, b, c)
    ensures |c| >= |b| - 1
  {
  }

  lemma LastAndChain(l: Leaves.Valid)
    requires l.chain.Node?
    ensures |l.pairs| > 0 && |Leaves.LeafBag(l, Last(l.pairs).key)| >= 2
  {
    hide Bag, Overflow.Flat;
    ChainFull(l);
    var ps, n := l.pairs, |l.pairs| - 1;
    BagHolds(ps, ps[n].key, ps[n].value);
    assert ps[n] in ps && Pair(ps[n].key, ps[n].value) == ps[n];
    var f := Overflow.Flat(l.chain);
    assert f[0] in multiset(f);
    TwoInside(Bag(ps, ps[n].key), multiset(f), ps[n].value, f[0]);
  }

  lemma TwoInside(b: Values, d: Values, x: Value, y: Value)
    requires x in b && y in d
    ensures |b + d| >= 2
  {
    assert |b| >= 1 && |d| >= 1;
  }

  lemma DropAbsent(b: Values, v: Value)
    ensures b == b - multiset{v} <==> v !in b
  {
    assert v in b ==> (b - multiset{v})[v] == b[v] - 1;
  }

  /** A value that no pair holds is not looked for in the chain. */
  lemma RawMissesAt(l: Leaves.Valid, e: Edit)
    requires l.chain.Node? && e.key == Last(l.pairs).key && e.op == REMOVE_KV && !Takes(l.pairs, e)
    requires Merge(l.pairs, [e]) == Modify(l.pairs, e)
    ensures RawStep(l, e) <==> e.value !in Overflow.Flat(l.chain)
  {
    hide Merge, Bag, Overflow.Flat, LastHit;
    HitTakes(l.pairs, e);
    assert Raw(l, [e]) == l;
    var b := Leaves.LeafBag(l, e.key);
    BagHolds(l.pairs, e.key, e.value);
    DropAbsent(b, e.value);
    assert StepsOn(e, b, b, e.key) <==> e.value !in Overflow.Flat(l.chain);
  }

  lemma RawAt(l: Leaves.Valid, e: Edit)
    requires l.chain.Node? && e.key == Last(l.pairs).key && e.op != INSERT
    ensures RawStep(l, e) <==> Clear(l, e)
  {
    hide RawStep, Merge, MergeFrom, Modify;
    MergeIs(l.pairs, [e]);
    Copied([], l.pairs, e);
    assert [] + l.pairs == l.pairs;
    ModifiedLast(l.pairs, e);
    if e.op == UPSERT || (Takes(l.pairs, e) && Several(l.pairs)) {
      RawKeepsAt(l, e);
    } else if Takes(l.pairs, e) {
      RawRemovesAt(l, e);
    } else {
      RawMissesAt(l, e);
    }
  }

  /** On a leaf with a chain, applyAll with one edit does what is meant exactly for the clear edits. */
  lemma ChainExact(l: Leaves.Valid, e: Edit)
    requires l.chain.Node?
    ensures |l.pairs| > 0
    ensures RawStep(l, e) <==> Clear(l, e)
  {
    hide RawStep;
    ChainFull(l);
    if e.key < Last(l.pairs).key {
      RawBelow(l, e);
    } else if e.key > Last(l.pairs).key {
      RawAbove(l, e);
    } else {
      if e.op == INSERT {
        RawAddsAt(l, e);
      } else {
        RawAt(l, e);
      }
    }
  }

  /** A leaf with one pair and one more value of its key in the chain. */
  function Chained(k: Key, v: Value, w: Value): Leaves.Valid {
    var c := Overflow.Node(1, 0, true, [w], Overflow.End);
    assert Overflow.Valid(c.next);
    Leaves.LeafData([Pair(k, v)], c)
  }

  /** A removal by key that is merged in takes both values away, and leaves the chain behind no pair. */
  lemma ChainLoses(k: Key, v: Value, w: Value)
    ensures var l, e := Chained(k, v, w), Edit(REMOVE_KEY, k, [], false);
            && Leaves.LeafBag(l, k) == multiset{v, w}
            && Raw(l, [e]) == Leaves.LeafData([], l.chain) && Leaves.LeafBag(Raw(l, [e]), k) == multiset{}
            && !RawStep(l, e)
  {
    hide Merge, RawStep, Bag;
    var l, e := Chained(k, v, w), Edit(REMOVE_KEY, k, [], false);
    BagOfOne(l.pairs[0], k);
    BagEmpty([], k);
    assert Overflow.Flat(l.chain) == [w];
    MergeIs(l.pairs, [e]);
    Copied([], l.pairs, e);
    assert [] + l.pairs == l.pairs && Modify(l.pairs, e) == [];
    ChainExact(l, e);
  }

  // ---------------------------------------------------------------- the erase loop of overflowRemove

  /** The loop as written: it goes on after an erase, one position ahead; None when it runs past the end. */
  function EraseLoop(vs: seq<Value>, v: Value, i: nat): Option<seq<Value>>
    decreases if i <= |vs| then |vs| - i else 0
  {
    if i == |vs| then Some(vs)
    else if i > |vs| then None
    else if vs[i] == v then EraseLoop(vs[..i] + vs[i + 1..], v, i + 1)
    else EraseLoop(vs, v, i + 1)
  }

  /** The loop itself; None when the iterator has left the vector. */
  method EraseValues(values: seq<Value>, v: Value) returns (left: Option<seq<Value>>)
    ensures left == EraseLoop(values, v, 0)
  {
    var vs, it := values, 0;
    while it < |vs|
      invariant EraseLoop(vs, v, it) == EraseLoop(values, v, 0)
      decreases if it <= |vs| then |vs| - it else 0
    {
      if vs[it] == v {
        vs := vs[..it] + vs[it + 1..];
      }
      it := it + 1;
    }
    left := if it == |vs| then Some(vs) else None;
  }

  /** What is meant: the first occurrence goes, if there is one. */
  function Erased(vs: seq<Value>, v: Value): seq<Value> {
    var i := Overflow.IndexOf(vs, v);
    if i == |vs| then vs else Overflow.Without(vs, i)
  }

  lemma {:induction false} EraseShrinks(vs: seq<Value>, v: Value, i: nat)
    ensures EraseLoop(vs, v, i).Some? ==> |EraseLoop(vs, v, i).value| <= |vs|
    decreases if i <= |vs| then |vs| - i else 0
  {
    if i < |vs| {
      if vs[i] == v {
        EraseShrinks(vs[..i] + vs[i + 1..], v, i + 1);
      } else {
        EraseShrinks(vs, v, i + 1);
      }
    }
  }

  lemma {:induction false} EraseNothing(vs: seq<Value>, v: Value, i: nat)
    requires i <= |vs|
    ensures EraseLoop(vs, v, i) == Some(vs) <==> v !in vs[i..]
    decreases |vs| - i
  {
    if i < |vs| {
      assert vs[i..] == [vs[i]] + vs[i + 1..];
      if vs[i] == v {
        EraseShrinks(vs[..i] + vs[i + 1..], v, i + 1);
      } else {
        EraseNothing(vs, v, i + 1);
      }
    }
  }

  lemma {:induction false} EraseReaches(vs: seq<Value>, v: Value, i: nat)
    requires i <= Overflow.IndexOf(vs, v)
    ensures EraseLoop(vs, v, i) == EraseLoop(vs, v, Overflow.IndexOf(vs, v))
    decreases |vs| - i
  {
    if i < Overflow.IndexOf(vs, v) {
      IndexFirst(vs, v, i);
      EraseReaches(vs, v, i + 1);
    }
  }

  lemma {:induction false} IndexFirst(vs: seq<Value>, v: Value, i: nat)
    requires i < Overflow.IndexOf(vs, v)
    ensures vs[i] != v
  {
    if i > 0 {
      IndexFirst(vs[1..], v, i - 1);
    }
  }

  /**
   * The loop does what is meant, and stays inside the vector, exactly when the
   * value is absent, or stands before the last position and not again from the
   * second position behind it on.
   */
  lemma EraseExact(vs: seq<Value>, v: Value)
    ensures var i := Overflow.IndexOf(vs, v);
            EraseLoop(vs, v, 0) == Some(Erased(vs, v)) <==> i == |vs| || (i + 1 < |vs| && v !in vs[i + 2..])
  {
    var i := Overflow.IndexOf(vs, v);
    EraseReaches(vs, v, 0);
    if i < |vs| {
      var ws := Overflow.Without(vs, i);
      assert EraseLoop(vs, v, i) == EraseLoop(ws, v, i + 1);
      if i + 1 < |vs| {
        EraseNothing(ws, v, i + 1);
        assert ws[i + 1..] == vs[i + 2..];
      }
    }
  }

  /**
   * overflowRemove as written, for a removal with a value: the erase loop, the
   * next node if nothing was erased, and the new count.  The refill at its end
   * asks for a node that has no items but a next node with items, so it never runs.
   */
  function RawRemove(c: Overflow.Chain, v: Value): Option<Overflow.Chain> {
    if c.End? then Some(c)
    else
      var left := EraseLoop(c.values, v, 0);
      if left.None? then None
      else if |left.value| != |c.values| then Some(Relinked(c, left.value, c.next))
      else
        var next := RawRemove(c.next, v);
        if next.None? then None else Some(Relinked(c, left.value, next.value))
  }

  /** The node with new values and a new link; nothing, if it then has no items. */
  function Relinked(c: Overflow.Chain, values: seq<Value>, next: Overflow.Chain): Overflow.Chain
    requires c.Node?
  {
    var count := |values| + Overflow.Count(next);
    if count == 0 then Overflow.End else Overflow.Node(count, c.id, true, values, next)
  }

  /** In the first node that holds the value it is not the last one, and stands nowhere behind the value after it. */
  ghost predicate Removable(c: Overflow.Chain, v: Value) {
    c.Node? ==>
      var i := Overflow.IndexOf(c.values, v);
      if i == |c.values| then Removable(c.next, v) else i + 1 < |c.values| && v !in c.values[i + 2..]
  }

  lemma {:induction false} EraseKeepsSome(vs: seq<Value>, v: Value, i: nat)
    requires i <= |vs| && EraseLoop(vs, v, i).Some?
    ensures |EraseLoop(vs, v, i).value| == |vs| <==> v !in vs[i..]
    ensures |EraseLoop(vs, v, i).value| == |vs| ==> EraseLoop(vs, v, i).value == vs
    ensures |EraseLoop(vs, v, i).value| >= i
    decreases |vs| - i
  {
    if i < |vs| {
      assert vs[i..] == [vs[i]] + vs[i + 1..];
      if vs[i] == v {
        EraseShrinks(vs[..i] + vs[i + 1..], v, i + 1);
        if i + 1 < |vs| {
          EraseKeepsSome(vs[..i] + vs[i + 1..], v, i + 1);
        }
      } else {
        EraseKeepsSome(vs, v, i + 1);
      }
    }
  }

  lemma RemoveHere(c: Overflow.Chain, v: Value)
    requires c.Node? && Overflow.Valid(c) && v in c.values
    ensures RawRemove(c, v) == Some(Overflow.Remove(c, v)) <==> Removable(c, v)
  {
    hide EraseLoop, Overflow.Pull, Overflow.Flat, Overflow.Valid;
    var i := Overflow.IndexOf(c.values, v);
    EraseExact(c.values, v);
    assert c.values[0..] == c.values;
    if i + 1 == |c.values| {
      EraseLast(c.values, v);
    } else if EraseLoop(c.values, v, 0).Some? {
      EraseKeepsSome(c.values, v, 0);
    }
  }

  lemma RawBeyond(c: Overflow.Chain, v: Value)
    requires c.Node? && v !in c.values
    ensures var next := RawRemove(c.next, v);
            RawRemove(c, v) == if next.None? then None else Some(Relinked(c, c.values, next.value))
  {
    hide EraseLoop, Relinked;
    EraseNothing(c.values, v, 0);
    assert c.values[0..] == c.values;
  }

  lemma IntendedBeyond(c: Overflow.Chain, v: Value)
    requires c.Node? && Overflow.Valid(c) && v !in c.values
    ensures var next := Overflow.Remove(c.next, v);
            Overflow.Remove(c, v) == Relinked(c, c.values, next)
  {
    hide Overflow.Pull, Overflow.Without;
  }

  lemma RelinkedSame(c: Overflow.Chain, a: Overflow.Chain, b: Overflow.Chain)
    requires c.Node? && |c.values| > 0
    ensures Relinked(c, c.values, a) == Relinked(c, c.values, b) <==> a == b
  {
  }

  lemma RemoveBeyond(c: Overflow.Chain, v: Value)
    requires c.Node? && Overflow.Valid(c) && v !in c.values
    ensures RawRemove(c, v) == Some(Overflow.Remove(c, v)) <==> RawRemove(c.next, v) == Some(Overflow.Remove(c.next, v))
  {
    hide RawRemove, Overflow.Remove, Overflow.Count;
    RawBeyond(c, v);
    IntendedBeyond(c, v);
    if RawRemove(c.next, v).Some? {
      RelinkedSame(c, RawRemove(c.next, v).value, Overflow.Remove(c.next, v));
    }
  }

  /** Removing from a chain does what is meant exactly when the erase loop does in the node it changes. */
  lemma {:induction false} RemoveExact(c: Overflow.Chain, v: Value)
    requires Overflow.Valid(c)
    ensures RawRemove(c, v) == Some(Overflow.Remove(c, v)) <==> Removable(c, v)
    decreases c
  {
    hide EraseLoop, Overflow.Pull, Overflow.Flat;
    if c.Node? {
      if v in c.values {
        RemoveHere(c, v);
      } else {
        RemoveBeyond(c, v);
        RemoveExact(c.next, v);
      }
    }
  }

  /** One removal takes both occurrences; a removal of the last value leaves the vector. */
  lemma EraseWrong(v: Value, x: Value, y: Value)
    requires x != v && y != v
    ensures EraseLoop([v, x, v, y], v, 0) == Some([x, y]) && Erased([v, x, v, y], v) == [x, v, y]
    ensures EraseLoop([x, v], v, 0) == None && Erased([x, v], v) == [x]
  {
    var vs, ws := [v, x, v, y], [x, v, y];
    assert vs[..0] + vs[1..] == ws && ws[..1] + ws[2..] == [x, y];
    assert EraseLoop(vs, v, 0) == EraseLoop(ws, v, 1) == EraseLoop([x, y], v, 2);
    assert [x, v][1..] == [v] && [x, v][..1] + [x, v][2..] == [x];
    assert EraseLoop([x, v], v, 0) == EraseLoop([x, v], v, 1) == EraseLoop([x], v, 2);
  }

  /** Erasing the last value steps past the end. */
  lemma EraseLast(vs: seq<Value>, v: Value)
    requires 0 < |vs| && Overflow.IndexOf(vs, v) == |vs| - 1
    ensures EraseLoop(vs, v, 0).None?
  {
    EraseReaches(vs, v, 0);
  }
}
