/** Keys, values, edits and pairs, and the standard binary searches over sorted sequences of them. */
module Types {

  datatype Option<+T> = None | Some(value: T)

  /** A key is represented by its place in the comparator's total order (see README). */
  type Key = int

  newtype Byte = x: int | 0 <= x < 256

  type Value = seq<Byte>

  type Id = nat

  datatype Op = INSERT | REMOVE_KEY | REMOVE_KV | UPSERT

  datatype Edit = Edit(op: Op, key: Key, value: Value, guaranteed: bool)
  {
    /** What a guaranteed edit does to the number of items. */
    function Delta(): int {
      if op == UPSERT then 0 else if op == INSERT then 1 else -1
    }
  }

  datatype Pair = Pair(key: Key, value: Value)

  function Last<T>(s: seq<T>): T
    requires |s| > 0
  {
    s[|s| - 1]
  }

  lemma Regroup<T>(a: seq<T>, b: seq<T>, c: seq<T>)
    ensures (a + b) + c == a + (b + c)
  {
  }

  // ---------------------------------------------------------------- key ranges; an absent bound does not bound

  predicate AtLeast(lo: Option<Key>, k: Key) { lo.None? || lo.value <= k }

  predicate Below(k: Key, hi: Option<Key>) { hi.None? || k < hi.value }

  predicate Within(lo: Option<Key>, hi: Option<Key>, k: Key) { AtLeast(lo, k) && Below(k, hi) }

  predicate StrictlyWithin(lo: Option<Key>, hi: Option<Key>, k: Key) { (lo.None? || lo.value < k) && Below(k, hi) }

  ghost predicate PairsWithin(ps: seq<Pair>, lo: Option<Key>, hi: Option<Key>) {
    forall i :: 0 <= i < |ps| ==> Within(lo, hi, ps[i].key)
  }

  ghost predicate EditsWithin(q: seq<Edit>, lo: Option<Key>, hi: Option<Key>) {
    forall j :: 0 <= j < |q| ==> Within(lo, hi, q[j].key)
  }

  // ---------------------------------------------------------------- pairs

  ghost predicate Sorted(ps: seq<Pair>) {
    forall i, j :: 0 <= i < j < |ps| ==> ps[i].key <= ps[j].key
  }

  function LowerBound(ps: seq<Pair>, k: Key): (i: nat)
    ensures i <= |ps|
    ensures forall j :: 0 <= j < i ==> ps[j].key < k
    ensures i < |ps| ==> ps[i].key >= k
  {
    if |ps| == 0 || ps[0].key >= k then 0 else 1 + LowerBound(ps[1..], k)
  }

  function UpperBound(ps: seq<Pair>, k: Key): (i: nat)
    ensures i <= |ps|
    ensures forall j :: 0 <= j < i ==> ps[j].key <= k
    ensures i < |ps| ==> ps[i].key > k
  {
    if |ps| == 0 || ps[0].key > k then 0 else 1 + UpperBound(ps[1..], k)
  }

  /** The values stored under one key. */
  function Bag(ps: seq<Pair>, k: Key): multiset<Value> {
    if |ps| == 0 then multiset{}
    else (if ps[0].key == k then multiset{ps[0].value} else multiset{}) + Bag(ps[1..], k)
  }

  function One(p: Pair, k: Key): multiset<Value> {
    if p.key == k then multiset{p.value} else multiset{}
  }

  lemma {:induction false} BagConcat(a: seq<Pair>, b: seq<Pair>, k: Key)
    ensures Bag(a + b, k) == Bag(a, k) + Bag(b, k)
  {
    if |a| == 0 {
      assert a + b == b;
    } else {
      assert (a + b)[1..] == a[1..] + b;
      BagConcat(a[1..], b, k);
    }
  }

  lemma BagOfOne(p: Pair, k: Key)
    ensures Bag([p], k) == One(p, k)
  {
    assert [p][1..] == [];
  }

  /** Splitting one position out of a sequence splits its value out of the bag. */
  lemma BagAt(ps: seq<Pair>, i: nat, k: Key)
    requires i < |ps|
    ensures Bag(ps, k) == Bag(ps[..i], k) + One(ps[i], k) + Bag(ps[i + 1..], k)
    ensures Bag(ps[..i] + ps[i + 1..], k) + One(ps[i], k) == Bag(ps, k)
  {
    assert ps == ps[..i] + ([ps[i]] + ps[i + 1..]);
    BagConcat(ps[..i], [ps[i]] + ps[i + 1..], k);
    BagConcat([ps[i]], ps[i + 1..], k);
    BagConcat(ps[..i], ps[i + 1..], k);
    BagOfOne(ps[i], k);
  }

  lemma BagInsertAt(ps: seq<Pair>, i: nat, p: Pair, k: Key)
    requires i <= |ps|
    ensures Bag(ps[..i] + [p] + ps[i..], k) == Bag(ps, k) + One(p, k)
  {
    hide Bag, One;
    var qs := ps[..i] + [p] + ps[i..];
    BagAt(qs, i, k);
    assert qs[..i] + qs[i + 1..] == ps;
  }

  lemma BagUpdateAt(ps: seq<Pair>, i: nat, p: Pair, k: Key)
    requires i < |ps|
    ensures Bag(ps[i := p], k) + One(ps[i], k) == Bag(ps, k) + One(p, k)
  {
    BagAt(ps, i, k);
    BagAt(ps[i := p], i, k);
    assert ps[i := p][..i] == ps[..i] && ps[i := p][i + 1..] == ps[i + 1..];
  }

  /** A value is in the bag exactly when some position holds it. */
  lemma {:induction false} BagHolds(ps: seq<Pair>, k: Key, v: Value)
    ensures v in Bag(ps, k) <==> Pair(k, v) in ps
  {
    if |ps| > 0 {
      BagHolds(ps[1..], k, v);
      assert ps == [ps[0]] + ps[1..];
    }
  }

  lemma BagEmpty(ps: seq<Pair>, k: Key)
    ensures Bag(ps, k) == multiset{} <==> forall i :: 0 <= i < |ps| ==> ps[i].key != k
  {
    if i :| 0 <= i < |ps| && ps[i].key == k {
      BagHolds(ps, k, ps[i].value);
      assert Pair(k, ps[i].value) == ps[i];
    }
    if v :| v in Bag(ps, k) {
      BagHolds(ps, k, v);
    }
    assert Bag(ps, k) != multiset{} ==> exists v :: v in Bag(ps, k);
  }

  // ---------------------------------------------------------------- edits

  ghost predicate SortedEdits(q: seq<Edit>) {
    forall i, j :: 0 <= i < j < |q| ==> q[i].key <= q[j].key
  }

  function EditLower(q: seq<Edit>, k: Key): (i: nat)
    ensures i <= |q|
    ensures forall j :: 0 <= j < i ==> q[j].key < k
    ensures i < |q| ==> q[i].key >= k
  {
    if |q| == 0 || q[0].key >= k then 0 else 1 + EditLower(q[1..], k)
  }

  function EditUpper(q: seq<Edit>, k: Key): (i: nat)
    ensures i <= |q|
    ensures forall j :: 0 <= j < i ==> q[j].key <= k
    ensures i < |q| ==> q[i].key > k
  {
    if |q| == 0 || q[0].key > k then 0 else 1 + EditUpper(q[1..], k)
  }

  function If(e: Edit, k: Key): seq<Edit> {
    if e.key == k then [e] else []
  }

  /** The edits of one key, in order. */
  function EditsOn(es: seq<Edit>, k: Key): seq<Edit> {
    if |es| == 0 then [] else If(es[0], k) + EditsOn(es[1..], k)
  }

  lemma EditsOnOne(e: Edit, k: Key)
    ensures EditsOn([e], k) == If(e, k)
  {
    assert [e][1..] == [];
  }

  lemma {:induction false} EditsOnConcat(a: seq<Edit>, b: seq<Edit>, k: Key)
    ensures EditsOn(a + b, k) == EditsOn(a, k) + EditsOn(b, k)
  {
    if |a| == 0 {
      assert a + b == b;
    } else {
      assert (a + b)[1..] == a[1..] + b;
      EditsOnConcat(a[1..], b, k);
    }
  }

  lemma {:induction false} EditsOnNone(es: seq<Edit>, k: Key)
    requires forall i :: 0 <= i < |es| ==> es[i].key != k
    ensures EditsOn(es, k) == []
  {
    if |es| > 0 {
      EditsOnNone(es[1..], k);
    }
  }

  lemma {:induction false} EditsOnAre(es: seq<Edit>, k: Key)
    ensures forall i :: 0 <= i < |EditsOn(es, k)| ==> EditsOn(es, k)[i].key == k && EditsOn(es, k)[i] in es
    ensures (forall i :: 0 <= i < |es| ==> es[i].key == k) ==> EditsOn(es, k) == es
  {
    if |es| > 0 {
      EditsOnAre(es[1..], k);
      assert es == [es[0]] + es[1..];
    }
  }

  lemma {:induction false} EditsOnSome(es: seq<Edit>, i: nat)
    requires i < |es|
    ensures es[i] in EditsOn(es, es[i].key)
  {
    if i > 0 {
      EditsOnSome(es[1..], i - 1);
    }
  }
}
