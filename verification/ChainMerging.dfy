/**
 * applyAll with a whole list of edits on a leaf with an overflow chain: when
 * every key gets what its edits mean and the chain stays with its key.
 */
module ChainMerging {
  import opened Types
  import opened Multimap
  import opened Tree
  import opened Merging
  import opened Limits
  import opened Reaching
  import Leaves
  import Overflow

  // ---------------------------------------------------------------- a merge falls apart at a key

  ghost predicate KeysBelow(ps: seq<Pair>, es: seq<Edit>, k: Key) {
    (forall i :: 0 <= i < |ps| ==> ps[i].key < k) && (forall i :: 0 <= i < |es| ==> es[i].key < k)
  }

  ghost predicate KeysFrom(ps: seq<Pair>, es: seq<Edit>, k: Key) {
    (forall i :: 0 <= i < |ps| ==> k <= ps[i].key) && (forall i :: 0 <= i < |es| ==> k <= es[i].key)
  }

  lemma {:induction false} HitBehind(u: seq<Pair>, v: seq<Pair>, e: Edit, n: nat)
    requires n <= |v| && forall i :: 0 <= i < |u| ==> u[i].key != e.key
    ensures LastHit(u + v, e, |u| + n) == if LastHit(v, e, n) >= 0 then |u| + LastHit(v, e, n) else -1
    decreases n
  {
    var w := u + v;
    if n == 0 {
      assert |u| > 0 ==> w[|u| - 1] == u[|u| - 1];
    } else {
      assert w[|u| + n - 1] == v[n - 1];
      HitBehind(u, v, e, n - 1);
    }
  }

  lemma ModifyBehind(u: seq<Pair>, v: seq<Pair>, e: Edit)
    requires forall i :: 0 <= i < |u| ==> u[i].key != e.key
    ensures Modify(u + v, e) == u + Modify(v, e)
  {
    hide LastHit;
    HitBehind(u, v, e, |v|);
    var i := LastHit(v, e, |v|);
    if i >= 0 {
      assert (u + v)[|u| + i := Pair(v[i].key, e.value)] == u + v[i := Pair(v[i].key, e.value)];
      assert (u + v)[..|u| + i] + (u + v)[|u| + i + 1..] == u + (v[..i] + v[i + 1..]);
    } else {
      assert (u + v) + [Pair(e.key, e.value)] == u + (v + [Pair(e.key, e.value)]);
    }
  }

  /** What was merged below a key is not touched any more. */
  lemma {:induction false} MergeBehind(u: seq<Pair>, v: seq<Pair>, c: seq<Pair>, es: seq<Edit>, k: Key)
    requires KeysBelow(u, [], k) && KeysFrom(c, es, k)
    ensures MergeFrom(u + v, c, es) == u + MergeFrom(v, c, es)
    decreases |c| + |es|
  {
    hide Modify;
    if Modifies(c, es) {
      ModifyBehind(u, v, es[0]);
      MergeBehind(u, Modify(v, es[0]), c, es[1..], k);
    } else if Inserts(c, es) {
      assert (u + v) + [Pair(es[0].key, es[0].value)] == u + (v + [Pair(es[0].key, es[0].value)]);
      MergeBehind(u, v + [Pair(es[0].key, es[0].value)], c, es[1..], k);
    } else if |c| > 0 {
      assert (u + v) + [c[0]] == u + (v + [c[0]]);
      MergeBehind(u, v + [c[0]], c[1..], es, k);
    }
  }

  lemma {:induction false} MergeSplitsFrom(u: seq<Pair>, c: seq<Pair>, d: seq<Pair>, es: seq<Edit>, fs: seq<Edit>,
                                           k: Key)
    requires MergeInv(u, c, es) && KeysBelow(u + c, es, k) && KeysFrom(d, fs, k)
    ensures MergeFrom(u, c + d, es + fs) == MergeFrom(u, c, es) + MergeFrom([], d, fs)
    decreases |c| + |es|
  {
    hide Modify, MergeInv;
    KeepBelow(u, c, es, k);
    var cd, ef := c + d, es + fs;
    if Modifies(c, es) {
      ModifyInv(u, c, es);
      assert Modifies(cd, ef) && ef[0] == es[0] && ef[1..] == es[1..] + fs;
      MergeSplitsFrom(Modify(u, es[0]), c, d, es[1..], fs, k);
    } else if Inserts(c, es) {
      InsertInv(u, c, es);
      assert Inserts(cd, ef) && ef[0] == es[0] && ef[1..] == es[1..] + fs;
      MergeSplitsFrom(u + [Pair(es[0].key, es[0].value)], c, d, es[1..], fs, k);
    } else if |c| > 0 {
      CopyInv(u, c, es);
      assert cd[0] == c[0] && cd[1..] == c[1..] + d;
      assert (u + c)[|u|] == c[0] && c[0].key < k;
      assert es == [] ==> ef == fs;
      assert !Modifies(cd, ef) && !Inserts(cd, ef);
      MergeSplitsFrom(u + [c[0]], c[1..], d, es, fs, k);
    } else {
      assert cd == d && ef == fs && u + [] == u;
      MergeBehind(u, [], d, fs, k);
    }
  }

  /** One step of the merge stays below a key that everything was below. */
  lemma KeepBelow(u: seq<Pair>, c: seq<Pair>, es: seq<Edit>, k: Key)
    requires MergeInv(u, c, es) && KeysBelow(u + c, es, k)
    ensures Modifies(c, es) ==> KeysBelow(Modify(u, es[0]) + c, es[1..], k)
    ensures Inserts(c, es) ==> KeysBelow(u + [Pair(es[0].key, es[0].value)] + c, es[1..], k)
    ensures |c| > 0 ==> KeysBelow(u + [c[0]] + c[1..], es, k)
  {
    var x := u + c;
    assert forall i :: 0 <= i < |u| ==> x[i] == u[i];
    assert forall i :: 0 <= i < |c| ==> x[|u| + i] == c[i];
    if Modifies(c, es) {
      ModifySorted(u, es[0]);
    }
  }

  /** Pairs and edits below a key, and those from it on, are merged on their own. */
  lemma MergeSplits(c: seq<Pair>, d: seq<Pair>, es: seq<Edit>, fs: seq<Edit>, k: Key)
    requires Sorted(c) && SortedEdits(es) && KeysBelow(c, es, k) && KeysFrom(d, fs, k)
    ensures Merge(c + d, es + fs) == Merge(c, es) + Merge(d, fs)
  {
    assert [] + c == c;
    MergeSplitsFrom([], c, d, es, fs, k);
  }

  // ---------------------------------------------------------------- the parts at and behind the last key

  function EditsBelow(es: seq<Edit>, k: Key): seq<Edit> { es[..EditLower(es, k)] }

  function EditsAbove(es: seq<Edit>, k: Key): seq<Edit> { es[EditUpper(es, k)..] }

  lemma EditsFall(es: seq<Edit>, k: Key)
    requires SortedEdits(es)
    ensures es == EditsBelow(es, k) + (EditsOn(es, k) + EditsAbove(es, k))
    ensures SortedEdits(EditsBelow(es, k)) && SortedEdits(EditsOn(es, k)) && SortedEdits(EditsAbove(es, k))
  {
    hide EditLower, EditUpper, EditsOn, SortedEdits;
    var a, b := EditLower(es, k), EditUpper(es, k);
    AtKey(es, k);
    assert es == es[..a] + (es[a..b] + es[b..]);
    SliceSorted(es, 0, a);
    SliceSorted(es, a, b);
    SliceSorted(es, b, |es|);
    assert es[0..a] == es[..a] && es[b..|es|] == es[b..];
  }

  lemma EditsApart(es: seq<Edit>, k: Key)
    requires SortedEdits(es)
    ensures KeysBelow([], EditsBelow(es, k), k) && KeysFrom([], EditsAbove(es, k), k + 1)
    ensures forall i :: 0 <= i < |EditsOn(es, k)| ==> EditsOn(es, k)[i].key == k
  {
    hide EditLower, EditUpper, EditsOn, SortedEdits;
    var b := EditUpper(es, k);
    AtKey(es, k);
    forall i | 0 <= i < |es[b..]|
      ensures k + 1 <= es[b..][i].key
    {
      PartAbove(es, b, i);
    }
  }

  lemma SliceSorted(es: seq<Edit>, a: nat, b: nat)
    requires SortedEdits(es) && a <= b <= |es|
    ensures SortedEdits(es[a..b])
  {
  }

  lemma PartAbove(es: seq<Edit>, b: nat, i: nat)
    requires SortedEdits(es) && b + i < |es|
    ensures es[b..][i] == es[b + i] && es[b].key <= es[b + i].key
  {
  }

  lemma AtKey(es: seq<Edit>, k: Key)
    requires SortedEdits(es)
    ensures EditLower(es, k) <= EditUpper(es, k) && EditsOn(es, k) == es[EditLower(es, k)..EditUpper(es, k)]
    ensures forall i :: 0 <= i < |EditsOn(es, k)| ==> EditsOn(es, k)[i].key == k
  {
    hide EditLower, EditUpper, EditsOn;
    var a, b := EditLower(es, k), EditUpper(es, k);
    assert a <= b;
    SliceOnly(es, a, b, k);
    EditsOnAre(es[a..b], k);
  }

  /** The pairs of the last key. */
  function LastRun(ps: seq<Pair>): seq<Pair>
    requires |ps| > 0
  {
    ps[LowerBound(ps, Last(ps).key)..]
  }

  function Front(ps: seq<Pair>): seq<Pair>
    requires |ps| > 0
  {
    ps[..LowerBound(ps, Last(ps).key)]
  }

  /** What becomes of the pairs of the last key: they are merged with the edits of their key alone. */
  function AtLast(ps: seq<Pair>, es: seq<Edit>): seq<Pair>
    requires |ps| > 0
  {
    Merge(LastRun(ps), EditsOn(es, Last(ps).key))
  }

  function Behind(ps: seq<Pair>, es: seq<Edit>): seq<Pair>
    requires |ps| > 0
  {
    Merge([], EditsAbove(es, Last(ps).key))
  }

  function Before(ps: seq<Pair>, es: seq<Edit>): seq<Pair>
    requires |ps| > 0
  {
    Merge(Front(ps), EditsBelow(es, Last(ps).key))
  }

  lemma ThreeParts(ps: seq<Pair>, es: seq<Edit>)
    requires |ps| > 0 && Sorted(ps) && SortedEdits(es)
    ensures Merge(ps, es) == Before(ps, es) + (AtLast(ps, es) + Behind(ps, es))
    ensures var z := Last(ps).key;
            && (forall i :: 0 <= i < |Before(ps, es)| ==> Before(ps, es)[i].key < z)
            && (forall i :: 0 <= i < |AtLast(ps, es)| ==> AtLast(ps, es)[i].key == z)
            && (forall i :: 0 <= i < |Behind(ps, es)| ==> Behind(ps, es)[i].key > z)
  {
    hide Merge, EditsOn, EditsBelow, EditsAbove, Sorted, SortedEdits, Front, LastRun;
    var z := Last(ps).key;
    var below, at, above := EditsBelow(es, z), EditsOn(es, z), EditsAbove(es, z);
    EditsFall(es, z);
    EditsApart(es, z);
    PartsSorted(ps);
    assert LastRun(ps) + [] == LastRun(ps);
    MergeSplits(Front(ps), LastRun(ps), below, at + above, z);
    MergeSplits(LastRun(ps), [], at, above, z + 1);
    MergeWithin(Front(ps), below, None, Some(z));
    MergeWithin(LastRun(ps), at, Some(z), Some(z + 1));
    MergeWithin([], above, Some(z + 1), None);
  }

  lemma PartsSorted(ps: seq<Pair>)
    requires |ps| > 0 && Sorted(ps)
    ensures ps == Front(ps) + LastRun(ps) && |LastRun(ps)| > 0
    ensures Sorted(Front(ps)) && Sorted(LastRun(ps)) && Sorted([])
    ensures KeysBelow(Front(ps), [], Last(ps).key)
    ensures forall i :: 0 <= i < |LastRun(ps)| ==> LastRun(ps)[i].key == Last(ps).key
  {
    hide LowerBound;
    var s := LowerBound(ps, Last(ps).key);
    assert forall i :: s <= i < |ps| ==> ps[s].key <= ps[i].key <= Last(ps).key;
  }

  lemma MergeWithin(ps: seq<Pair>, es: seq<Edit>, lo: Option<Key>, hi: Option<Key>)
    requires Sorted(ps) && SortedEdits(es) && PairsWithin(ps, lo, hi) && EditsWithin(es, lo, hi)
    ensures PairsWithin(Merge(ps, es), lo, hi)
  {
    MergeFromSorted([], ps, es, lo, hi);
  }

  // ---------------------------------------------------------------- a list of edits

  /** Every key gets what its edits mean. */
  ghost predicate RawSteps(l: Leaves.Valid, es: seq<Edit>) {
    forall k :: Steps(EditsOn(es, k), Leaves.LeafBag(l, k), Leaves.LeafBag(Raw(l, es), k))
  }

  /** The chain is still behind the key its values belong to. */
  predicate ChainStays(l: Leaves.Valid, es: seq<Edit>)
    requires |l.pairs| > 0
  {
    var r := Raw(l, es).pairs;
    |r| > 0 && Last(r).key == Last(l.pairs).key
  }

  /** The condition: it looks at the pairs of the last key, the chain, and the edits at and behind that key. */
  predicate Fitting(l: Leaves.Valid, es: seq<Edit>)
    requires |l.pairs| > 0
  {
    var z, chain := Last(l.pairs).key, multiset(Overflow.Flat(l.chain));
    && Behind(l.pairs, es) == [] && AtLast(l.pairs, es) != []
    && Bag(AtLast(l.pairs, es), z) + chain in Outcomes(EditsOn(es, z), {Bag(LastRun(l.pairs), z) + chain})
  }

  lemma LastHeld(l: Leaves.Valid)
    requires l.chain.Node?
    ensures var z := Last(l.pairs).key;
            Leaves.LeafBag(l, z) == Bag(LastRun(l.pairs), z) + multiset(Overflow.Flat(l.chain))
  {
    hide Bag, Front, LastRun;
    var ps, z := l.pairs, Last(l.pairs).key;
    PartsSorted(ps);
    BagEmpty(Front(ps), z);
    BagConcat(Front(ps), LastRun(ps), z);
  }

  lemma LastMerged(l: Leaves.Valid, es: seq<Edit>)
    requires l.chain.Node? && SortedEdits(es)
    ensures Bag(Merge(l.pairs, es), Last(l.pairs).key) == Bag(AtLast(l.pairs, es), Last(l.pairs).key)
  {
    hide Bag, Merge, AtLast, Before, Behind, EditsOn, Overflow.Valid, Sorted, SortedEdits;
    var ps, z := l.pairs, Last(l.pairs).key;
    ThreeParts(ps, es);
    BagEmpty(Before(ps, es), z);
    BagEmpty(Behind(ps, es), z);
    BagConcat(Before(ps, es), AtLast(ps, es) + Behind(ps, es), z);
    BagConcat(AtLast(ps, es), Behind(ps, es), z);
  }

  lemma LastBags(l: Leaves.Valid, es: seq<Edit>)
    requires l.chain.Node? && SortedEdits(es) && ChainStays(l, es)
    ensures var z, chain := Last(l.pairs).key, multiset(Overflow.Flat(l.chain));
            && Leaves.LeafBag(l, z) == Bag(LastRun(l.pairs), z) + chain
            && Leaves.LeafBag(Raw(l, es), z) == Bag(AtLast(l.pairs, es), z) + chain
  {
    hide Bag, Merge, AtLast;
    LastHeld(l);
    LastMerged(l, es);
  }

  lemma StaysExact(l: Leaves.Valid, es: seq<Edit>)
    requires l.chain.Node? && SortedEdits(es)
    ensures ChainStays(l, es) <==> Behind(l.pairs, es) == [] && AtLast(l.pairs, es) != []
  {
    hide Merge, AtLast, Before, Behind;
    var ps := l.pairs;
    ThreeParts(ps, es);
    var a, b, c, r := Before(ps, es), AtLast(ps, es), Behind(ps, es), Merge(ps, es);
    assert |c| > 0 ==> Last(r) == Last(c);
    assert |c| == 0 && |b| > 0 ==> Last(r) == Last(b);
    assert |c| == 0 && |b| == 0 && |a| > 0 ==> Last(r) == Last(a);
  }

  lemma OtherKey(l: Leaves.Valid, es: seq<Edit>, k: Key)
    requires l.chain.Node? && SortedEdits(es) && ChainStays(l, es) && k != Last(l.pairs).key
    ensures Steps(EditsOn(es, k), Leaves.LeafBag(l, k), Leaves.LeafBag(Raw(l, es), k))
  {
    hide Bag, Merge, Steps;
    MergeRefines(l.pairs, es, k);
    NoChainAdds(Bag(l.pairs, k), Bag(Merge(l.pairs, es), k));
  }

  /**
   * applyAll on a leaf with a chain gives every key what its edits mean and
   * leaves the chain with its key if and only if the edits at and behind the
   * last key fit.  A leaf is left unless the chain has lost all its pairs.
   */
  lemma ListExact(l: Leaves.Valid, es: seq<Edit>)
    requires l.chain.Node? && SortedEdits(es)
    ensures RawSteps(l, es) && ChainStays(l, es) <==> Fitting(l, es)
    ensures Leaves.Inv(Raw(l, es)) <==> Merge(l.pairs, es) != []
  {
    hide Bag, Merge, Steps, Outcomes, AtLast, Behind, ChainStays, EditsOn, LastRun;
    StaysExact(l, es);
    MergeRefines(l.pairs, es, 0);
    if ChainStays(l, es) {
      var z := Last(l.pairs).key;
      LastBags(l, es);
      OutcomesAre(EditsOn(es, z), {Leaves.LeafBag(l, z)}, Leaves.LeafBag(Raw(l, es), z));
      if Fitting(l, es) {
        forall k
          ensures Steps(EditsOn(es, k), Leaves.LeafBag(l, k), Leaves.LeafBag(Raw(l, es), k))
        {
          if k != z {
            OtherKey(l, es, k);
          }
        }
      }
    }
  }

  /** Edits below the key of the chain fit. */
  lemma BelowFits(l: Leaves.Valid, es: seq<Edit>)
    requires l.chain.Node? && SortedEdits(es) && forall i :: 0 <= i < |es| ==> es[i].key < Last(l.pairs).key
    ensures Fitting(l, es)
  {
    hide LastRun, Merge, Bag, EditUpper;
    var z, run := Last(l.pairs).key, LastRun(l.pairs);
    EditsOnNone(es, z);
    assert EditsAbove(es, z) == [];
    PartsSorted(l.pairs);
    MergeNothing(run);
    MergeNothing([]);
  }

  lemma MergeNothing(ps: seq<Pair>)
    ensures Merge(ps, []) == ps
  {
    CopiesAll([], ps);
    assert [] + ps == ps;
  }

  // ---------------------------------------------------------------- the edits of the last key, one by one

  predicate AllAt(ps: seq<Pair>, es: seq<Edit>, z: Key) {
    (forall i :: 0 <= i < |ps| ==> ps[i].key == z) && (forall i :: 0 <= i < |es| ==> es[i].key == z)
  }

  /**
   * Every edit finds what it is meant for among the pairs: u is merged so far,
   * c still to be copied.
   */
  predicate Covered(u: seq<Pair>, c: seq<Pair>, es: seq<Edit>, chain: Values)
    decreases |c| + |es|
  {
    if |es| == 0 then true
    else if es[0].op == INSERT then Covered(u + [Pair(es[0].key, es[0].value)], c, es[1..], chain)
    else if |c| > 0 then Covered(u + [c[0]], c[1..], es, chain)
    else Found(u, es[0], chain) && Covered(Modify(u, es[0]), c, es[1..], chain)
  }

  predicate Found(u: seq<Pair>, e: Edit, chain: Values) {
    if e.op == REMOVE_KV then Pair(e.key, e.value) in u || e.value !in chain else u != []
  }

  lemma WorkInside(u: seq<Pair>, e: Edit, d: Values)
    requires AllAt(u, [e], e.key) && e.op != INSERT && Found(u, e, d)
    ensures Step(e, Bag(u, e.key) + d, Bag(Modify(u, e), e.key) + d)
    ensures AllAt(Modify(u, e), [], e.key)
  {
    hide Bag, Modify, Step;
    ModifyStep(u, e, e.key);
    ModifySorted(u, e);
    BagEmpty(u, e.key);
    BagHolds(u, e.key, e.value);
    assert u != [] ==> u[0].key == e.key;
    StepInside(e, Bag(u, e.key), Bag(Modify(u, e), e.key), d);
    ModifiedAt(u, e);
  }

  lemma ModifiedAt(u: seq<Pair>, e: Edit)
    requires AllAt(u, [], e.key)
    ensures AllAt(Modify(u, e), [], e.key)
  {
    hide LastHit;
  }

  lemma {:induction false} CoveredSteps(u: seq<Pair>, c: seq<Pair>, es: seq<Edit>, d: Values, z: Key)
    requires AllAt(u, es, z) && AllAt(c, [], z) && Covered(u, c, es, d)
    ensures Steps(es, Bag(u, z) + Bag(c, z) + d, Bag(MergeFrom(u, c, es), z) + d)
    decreases |c| + |es|
  {
    hide Bag, Modify, Step, Found;
    var b := Bag(u, z) + Bag(c, z) + d;
    if |es| == 0 {
      MergedAll(u, c, z);
    } else if es[0].op == INSERT {
      var v := u + [Pair(es[0].key, es[0].value)];
      InsertMore(u, c, es[0], d);
      CoveredSteps(v, c, es[1..], d, z);
      StepsCons(es, b, Bag(v, z) + Bag(c, z) + d, Bag(MergeFrom(u, c, es), z) + d);
    } else if |c| > 0 {
      CopyTotal(u, c, z);
      CoveredSteps(u + [c[0]], c[1..], es, d, z);
    } else {
      WorkInside(u, es[0], d);
      NothingMore(u, c, d, z);
      NothingMore(Modify(u, es[0]), c, d, z);
      CoveredSteps(Modify(u, es[0]), c, es[1..], d, z);
      StepsCons(es, b, Bag(Modify(u, es[0]), z) + d, Bag(MergeFrom(u, c, es), z) + d);
    }
  }

  lemma MergedAll(u: seq<Pair>, c: seq<Pair>, z: Key)
    ensures MergeFrom(u, c, []) == u + c && Bag(u + c, z) == Bag(u, z) + Bag(c, z)
  {
    BagConcat(u, c, z);
    CopiesAll(u, c);
  }

  lemma NothingMore(u: seq<Pair>, c: seq<Pair>, d: Values, z: Key)
    requires |c| == 0
    ensures Bag(u, z) + Bag(c, z) + d == Bag(u, z) + d
  {
  }

  lemma InsertMore(u: seq<Pair>, c: seq<Pair>, e: Edit, d: Values)
    requires e.op == INSERT
    ensures Step(e, Bag(u, e.key) + Bag(c, e.key) + d, Bag(u + [Pair(e.key, e.value)], e.key) + Bag(c, e.key) + d)
  {
    hide Bag;
    BagConcat(u, [Pair(e.key, e.value)], e.key);
    BagOfOne(Pair(e.key, e.value), e.key);
    AddInside(Bag(u, e.key), e.value, Bag(c, e.key));
    AddInside(Bag(u, e.key) + Bag(c, e.key), e.value, d);
  }

  /** Edits that find what they are meant for fit, if they leave something at the last key and nothing behind it. */
  lemma CoveredFits(l: Leaves.Valid, es: seq<Edit>)
    requires l.chain.Node? && SortedEdits(es)
    requires Behind(l.pairs, es) == [] && AtLast(l.pairs, es) != []
    requires Covered([], LastRun(l.pairs), EditsOn(es, Last(l.pairs).key), multiset(Overflow.Flat(l.chain)))
    ensures Fitting(l, es)
  {
    hide Outcomes, Covered, MergeFrom, Bag, Behind, EditsOn, Steps, LastRun;
    var z, d, run := Last(l.pairs).key, multiset(Overflow.Flat(l.chain)), LastRun(l.pairs);
    var at := EditsOn(es, z);
    EditsApart(es, z);
    PartsSorted(l.pairs);
    CoveredSteps([], run, at, d, z);
    BagEmpty([], z);
    assert Bag([], z) + Bag(run, z) == Bag(run, z);
    OutcomesAre(at, {Bag(run, z) + d}, Bag(AtLast(l.pairs, es), z) + d);
  }

  // ---------------------------------------------------------------- the condition is needed

  lemma ModifyMoves(u: seq<Pair>, e: Edit)
    requires AllAt(u, [e], e.key) && (e.op == UPSERT || e.op == REMOVE_KEY)
    ensures |Modify(u, e)|
         == if e.op == UPSERT then (if u == [] then 1 else |u|) else if u == [] then 0 else |u| - 1
  {
  }

  lemma StepMoves(e: Edit, b: Values, c: Values)
    requires Step(e, b, c) && e.op != REMOVE_KV
    ensures e.op == INSERT ==> |c| == |b| + 1
    ensures e.op == UPSERT ==> |c| == if |b| == 0 then 1 else |b|
    ensures e.op == REMOVE_KEY ==> |c| == if |b| == 0 then 0 else |b| - 1
  {
  }

  /** Once an edit has missed what is in the chain, the merge keeps more than was meant. */
  lemma {:induction false} Behindhand(u: seq<Pair>, c: seq<Pair>, es: seq<Edit>, d: Values, z: Key, b: Values,
                                      r: Values)
    requires AllAt(u, es, z) && AllAt(c, [], z) && |d| > 0
    requires forall i :: 0 <= i < |es| ==> es[i].op != REMOVE_KV
    requires |b| <= |u| + |c| + |d| && Steps(es, b, r)
    requires |b| < |u| + |c| + |d| || !Covered(u, c, es, d)
    ensures |r| < |MergeFrom(u, c, es)| + |d|
    decreases |c| + |es|
  {
    hide Bag, Modify, Step;
    if |es| == 0 {
      MergedAll(u, c, z);
    } else if es[0].op != INSERT && |c| > 0 {
      Behindhand(u + [c[0]], c[1..], es, d, z, b, r);
    } else {
      var m :| Step(es[0], b, m) && Steps(es[1..], m, r);
      StepMoves(es[0], b, m);
      if es[0].op == INSERT {
        Behindhand(u + [Pair(es[0].key, es[0].value)], c, es[1..], d, z, m, r);
      } else {
        ModifyMoves(u, es[0]);
        ModifiedAt(u, es[0]);
        Behindhand(Modify(u, es[0]), c, es[1..], d, z, m, r);
      }
    }
  }

  lemma {:induction false} BagSize(ps: seq<Pair>, z: Key)
    requires AllAt(ps, [], z)
    ensures |Bag(ps, z)| == |ps|
  {
    if |ps| > 0 {
      BagSize(ps[1..], z);
      assert |multiset{ps[0].value}| == 1;
    }
  }

  /** Without removals of single pairs at the last key, finding what is meant is all that it takes. */
  lemma CoveredExact(l: Leaves.Valid, es: seq<Edit>)
    requires l.chain.Node? && SortedEdits(es)
    requires forall i :: 0 <= i < |EditsOn(es, Last(l.pairs).key)| ==> EditsOn(es, Last(l.pairs).key)[i].op != REMOVE_KV
    ensures Fitting(l, es)
            <==> Behind(l.pairs, es) == [] && AtLast(l.pairs, es) != []
                 && Covered([], LastRun(l.pairs), EditsOn(es, Last(l.pairs).key), multiset(Overflow.Flat(l.chain)))
  {
    hide Outcomes, Covered, MergeFrom, Bag, Behind, EditsOn, Steps, LastRun;
    var z, d, run := Last(l.pairs).key, multiset(Overflow.Flat(l.chain)), LastRun(l.pairs);
    var at := EditsOn(es, z);
    if Fitting(l, es) && !Covered([], run, at, d) {
      var b, r := Bag(run, z) + d, Bag(AtLast(l.pairs, es), z) + d;
      EditsApart(es, z);
      PartsSorted(l.pairs);
      ThreeParts(l.pairs, es);
      BagSize(AtLast(l.pairs, es), z);
      BagSize(run, z);
      ChainFull(l);
      OutcomesAre(at, {b}, r);
      Behindhand([], run, at, d, z, b, r);
      assert false;
    }
    if Behind(l.pairs, es) == [] && AtLast(l.pairs, es) != [] && Covered([], run, at, d) {
      CoveredFits(l, es);
    }
  }

  // ---------------------------------------------------------------- lists of clear edits

  /** No later removal is for this value. */
  predicate Lasting(v: Value, es: seq<Edit>) {
    forall j :: 0 <= j < |es| && es[j].op == REMOVE_KV ==> es[j].value != v
  }

  /**
   * Every edit is clear by itself, no removal takes a pair of the last key, and
   * none is for a value that an upsert brings there.
   */
  predicate ClearList(l: Leaves.Valid, es: seq<Edit>)
    requires |l.pairs| > 0
  {
    && (forall i :: 0 <= i < |es| ==> Clear(l, es[i]))
    && (forall i :: 0 <= i < |es| && es[i].key == Last(l.pairs).key ==> !Takes(l.pairs, es[i]))
    && forall i :: 0 <= i < |es| && es[i].op == UPSERT && es[i].key == Last(l.pairs).key ==>
         Lasting(es[i].value, EditsOn(es, es[i].key))
  }

  /** Edits at one key that leave its values in the chain alone, and always leave it a pair. */
  predicate Sparing(es: seq<Edit>, d: Values) {
    forall i :: 0 <= i < |es| ==>
      && es[i].op != REMOVE_KEY
      && (es[i].op == REMOVE_KV ==> es[i].value !in d)
      && (es[i].op == UPSERT ==> Lasting(es[i].value, es))
  }

  predicate Spared(ps: seq<Pair>, es: seq<Edit>) {
    exists i :: 0 <= i < |ps| && Lasting(ps[i].value, es)
  }

  lemma SparingRest(es: seq<Edit>, d: Values)
    requires |es| > 0 && Sparing(es, d)
    ensures Sparing(es[1..], d)
  {
    hide Lasting;
    forall i | 0 <= i < |es[1..]| && es[1..][i].op == UPSERT
      ensures Lasting(es[1..][i].value, es[1..])
    {
      assert es[1..][i] == es[i + 1];
      LastingRest(es[i + 1].value, es);
    }
  }

  lemma LastingRest(v: Value, es: seq<Edit>)
    requires |es| > 0 && Lasting(v, es)
    ensures Lasting(v, es[1..])
  {
  }

  lemma SparedWork(u: seq<Pair>, es: seq<Edit>, d: Values)
    requires |es| > 0 && es[0].op != INSERT && AllAt(u, es, es[0].key) && Sparing(es, d) && Spared(u, es)
    ensures Found(u, es[0], d) && Spared(Modify(u, es[0]), es[1..])
  {
    hide Lasting;
    var e, r := es[0], Modify(u, es[0]);
    var i :| 0 <= i < |u| && Lasting(u[i].value, es);
    LastingRest(u[i].value, es);
    var h := LastHit(u, e, |u|);
    if e.op == UPSERT {
      LastingRest(e.value, es);
      assert h == |u| - 1 && r[h].value == e.value;
    } else if h >= 0 {
      NotRemoved(u[i].value, es);
      assert i != h;
      assert r[if i < h then i else i - 1] == u[i];
    }
  }

  lemma NotRemoved(v: Value, es: seq<Edit>)
    requires |es| > 0 && es[0].op == REMOVE_KV && Lasting(v, es)
    ensures es[0].value != v
  {
  }

  lemma SparedInsert(u: seq<Pair>, c: seq<Pair>, p: Pair, es: seq<Edit>)
    requires |es| > 0 && Spared(u + c, es)
    ensures Spared((u + [p]) + c, es[1..])
  {
    hide Lasting;
    var s, r := u + c, (u + [p]) + c;
    var i :| 0 <= i < |s| && Lasting(s[i].value, es);
    LastingRest(s[i].value, es);
    assert r[if i < |u| then i else i + 1] == s[i];
  }

  lemma {:induction false} SparingCovered(u: seq<Pair>, c: seq<Pair>, es: seq<Edit>, d: Values, z: Key)
    requires AllAt(u, es, z) && AllAt(c, [], z) && Sparing(es, d) && Spared(u + c, es)
    ensures Covered(u, c, es, d) && MergeFrom(u, c, es) != []
    decreases |c| + |es|
  {
    hide Modify, Found, Sparing, Spared;
    if |es| == 0 {
      MergedAll(u, c, z);
      SparedSome(u + c, es);
    } else if es[0].op == INSERT {
      SparingRest(es, d);
      SparedInsert(u, c, Pair(es[0].key, es[0].value), es);
      SparingCovered(u + [Pair(es[0].key, es[0].value)], c, es[1..], d, z);
    } else if |c| > 0 {
      assert u + c == (u + [c[0]]) + c[1..];
      SparingCovered(u + [c[0]], c[1..], es, d, z);
    } else {
      assert u + c == u && Modify(u, es[0]) + c == Modify(u, es[0]);
      SparedWork(u, es, d);
      SparingRest(es, d);
      ModifiedAt(u, es[0]);
      SparingCovered(Modify(u, es[0]), c, es[1..], d, z);
    }
  }

  lemma SparedSome(ps: seq<Pair>, es: seq<Edit>)
    requires Spared(ps, es)
    ensures ps != []
  {
  }

  lemma {:induction false} RemovalsOfNothing(es: seq<Edit>)
    requires forall i :: 0 <= i < |es| ==> es[i].op == REMOVE_KEY || es[i].op == REMOVE_KV
    ensures MergeFrom([], [], es) == []
    decreases |es|
  {
    if |es| > 0 {
      assert Modifies([], es) && Modify([], es[0]) == [];
      RemovalsOfNothing(es[1..]);
    }
  }

  lemma ClearAbove(l: Leaves.Valid, es: seq<Edit>)
    requires l.chain.Node? && SortedEdits(es) && ClearList(l, es)
    ensures Behind(l.pairs, es) == []
  {
    hide MergeFrom, EditUpper;
    var z, b := Last(l.pairs).key, EditUpper(es, Last(l.pairs).key);
    EditsApart(es, z);
    forall i | 0 <= i < |es[b..]|
      ensures es[b..][i].op == REMOVE_KEY || es[b..][i].op == REMOVE_KV
    {
      assert es[b..][i] == es[b + i] && Clear(l, es[b + i]);
    }
    RemovalsOfNothing(es[b..]);
  }

  lemma ClearSpares(l: Leaves.Valid, es: seq<Edit>)
    requires l.chain.Node? && SortedEdits(es) && ClearList(l, es)
    ensures var at := EditsOn(es, Last(l.pairs).key);
            Sparing(at, multiset(Overflow.Flat(l.chain))) && Spared(LastRun(l.pairs), at)
  {
    hide EditsOn, Lasting, Overflow.Flat, LastRun;
    var p := Last(l.pairs);
    var at := EditsOn(es, p.key);
    EditsOnAre(es, p.key);
    forall i | 0 <= i < |at|
      ensures at[i].op != REMOVE_KEY
      ensures at[i].op == REMOVE_KV ==> at[i].value !in multiset(Overflow.Flat(l.chain)) && at[i].value != p.value
      ensures at[i].op == UPSERT ==> Lasting(at[i].value, at)
    {
      assert at[i] in es;
      var j :| 0 <= j < |es| && es[j] == at[i];
      assert Clear(l, es[j]) && !Takes(l.pairs, es[j]);
      assert p in l.pairs;
    }
    LastingIs(p.value, at);
    PartsSorted(l.pairs);
    assert Last(LastRun(l.pairs)) == p;
  }

  lemma LastingIs(v: Value, es: seq<Edit>)
    requires forall i :: 0 <= i < |es| ==> es[i].op == REMOVE_KV ==> es[i].value != v
    ensures Lasting(v, es)
  {
  }

  /** A list of clear edits gives every key what it means and leaves the chain where it is. */
  lemma ClearFits(l: Leaves.Valid, es: seq<Edit>)
    requires l.chain.Node? && SortedEdits(es) && ClearList(l, es)
    ensures Fitting(l, es) && RawSteps(l, es) && ChainStays(l, es)
  {
    hide Sparing, Spared, ClearList, Covered, Fitting, RawSteps, ChainStays, Behind, EditsOn, Raw, LastRun;
    var z, run := Last(l.pairs).key, LastRun(l.pairs);
    EditsApart(es, z);
    PartsSorted(l.pairs);
    ClearAbove(l, es);
    ClearSpares(l, es);
    assert [] + run == run;
    SparingCovered([], run, EditsOn(es, z), multiset(Overflow.Flat(l.chain)), z);
    CoveredFits(l, es);
    ListExact(l, es);
  }

  /** Clear edits one by one are not enough: an upsert and the removal of its value leave the chain behind no pair. */
  lemma ClearAlone(k: Key, v: Value, w: Value, x: Value)
    requires x != v && x != w
    ensures var l, es := Chained(k, v, w), [Edit(UPSERT, k, x, false), Edit(REMOVE_KV, k, x, false)];
            && SortedEdits(es) && Clear(l, es[0]) && Clear(l, es[1])
            && Raw(l, es) == Leaves.LeafData([], l.chain) && !RawSteps(l, es)
  {
    hide RawSteps;
    var l, es := Chained(k, v, w), [Edit(UPSERT, k, x, false), Edit(REMOVE_KV, k, x, false)];
    assert es[1..] == [es[1]] && EditsOn([es[1]], k) == [es[1]] by { EditsOnOne(es[1], k); }
    assert EditsOn(es, k) == [es[0]] + [es[1]] == es;
    ClearMerge(k, v, x);
    ClearBags(k, v, w);
    if RawSteps(l, es) {
      TwoStay(es, Leaves.LeafBag(l, k), Leaves.LeafBag(Raw(l, es), k)) by {
        StepsAt(l, es, k);
      }
    }
  }

  lemma StepsAt(l: Leaves.Valid, es: seq<Edit>, k: Key)
    requires RawSteps(l, es)
    ensures Steps(EditsOn(es, k), Leaves.LeafBag(l, k), Leaves.LeafBag(Raw(l, es), k))
  {
  }

  lemma ClearMerge(k: Key, v: Value, x: Value)
    ensures Merge([Pair(k, v)], [Edit(UPSERT, k, x, false), Edit(REMOVE_KV, k, x, false)]) == []
  {
    var es, p, q := [Edit(UPSERT, k, x, false), Edit(REMOVE_KV, k, x, false)], Pair(k, v), Pair(k, x);
    assert es[1..] == [es[1]] && [es[1]][1..] == [] && [p][1..] == [] && [] + [p] == [p];
    assert MergeFrom([], [p], es) == MergeFrom([p], [], es);
    assert Modify([p], es[0]) == [q] && Modify([q], es[1]) == [];
    assert MergeFrom([p], [], es) == MergeFrom([q], [], [es[1]]) == MergeFrom([], [], []) == [];
  }

  lemma ClearBags(k: Key, v: Value, w: Value)
    ensures var l := Chained(k, v, w);
            Leaves.LeafBag(l, k) == multiset{v, w} && Leaves.LeafBag(Leaves.LeafData([], l.chain), k) == multiset{}
  {
    BagOfOne(Pair(k, v), k);
    assert Overflow.Flat(Chained(k, v, w).chain) == [w];
  }

  lemma TwoStay(es: seq<Edit>, b: Values, c: Values)
    requires |es| == 2 && es[0].op == UPSERT && es[1].op == REMOVE_KV && |b| == 2 && Steps(es, b, c)
    ensures c != multiset{}
  {
    hide Steps;
    assert es == [es[0]] + [es[1]];
    var m := StepsSplit([es[0]], [es[1]], b, c);
    StepsOne(es[0], b, m);
    StepsOne(es[1], m, c);
  }
}
