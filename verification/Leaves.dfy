/**
 * One leaf with its overflow chain: the specification of insertion and removal,
 * and the proof that each is one step of the reference multimap.
 */
module Leaves {
  import opened Types
  import opened Multimap
  import Overflow

  datatype LeafData = LeafData(pairs: seq<Pair>, chain: Overflow.Chain)

  /** Pairs are sorted; the values of the chain belong to the last key. */
  ghost predicate Inv(l: LeafData) {
    && Sorted(l.pairs)
    && Overflow.Valid(l.chain)
    && (l.chain.Node? ==> |l.pairs| > 0)
  }

  function ChainBag(l: LeafData, k: Key): Values {
    if |l.pairs| > 0 && Last(l.pairs).key == k then multiset(Overflow.Flat(l.chain)) else multiset{}
  }

  /** All values the leaf holds for a key, in its pairs or in its chain. */
  function LeafBag(l: LeafData, k: Key): Values {
    Bag(l.pairs, k) + ChainBag(l, k)
  }

  function Count(l: LeafData): nat {
    |l.pairs| + Overflow.Count(l.chain)
  }

  /** The leaf's items in order: the pairs, then the chain under the last key. */
  function Items(l: LeafData): seq<Pair> {
    if |l.pairs| == 0 then []
    else l.pairs + Under(Last(l.pairs).key, Overflow.Flat(l.chain))
  }

  function Under(k: Key, vs: seq<Value>): (ps: seq<Pair>)
    ensures |ps| == |vs|
  {
    seq(|vs|, i requires 0 <= i < |vs| => Pair(k, vs[i]))
  }

  // ---------------------------------------------------------------- insertion

  /** Position of the first pair with this key, or the end. */
  function Find(ps: seq<Pair>, k: Key): (i: nat)
    ensures i <= |ps|
  {
    var i := LowerBound(ps, k);
    if i < |ps| && ps[i].key == k then i else |ps|
  }

  function InsertPair(ps: seq<Pair>, p: Pair): seq<Pair> {
    var i := UpperBound(ps, p.key);
    ps[..i] + [p] + ps[i..]
  }

  /** Moves the whole chain behind the pairs, taking it from its back. */
  function PullAll(ps: seq<Pair>, k: Key, c: Overflow.Chain): seq<Pair>
    requires Overflow.Valid(c)
    decreases |Overflow.Flat(c)|
  {
    if c.End? then ps
    else
      var (v, rest) := Overflow.Pull(c);
      Overflow.PullTakesLast(c);
      PullAll(InsertPair(ps, Pair(k, v)), k, rest)
  }

  function Insert(l: LeafData, k: Key, v: Value, upsert: bool): LeafData
    requires Inv(l)
  {
    var i := Find(l.pairs, k);
    if upsert && i < |l.pairs| then
      LeafData(l.pairs[i := Pair(l.pairs[i].key, v)], l.chain)
    else if i == |l.pairs| && l.chain.Node? then
      LeafData(InsertPair(PullAll(l.pairs, Last(l.pairs).key, l.chain), Pair(k, v)), Overflow.End)
    else if i == |l.pairs| - 1 && l.chain.Node? then
      LeafData(l.pairs, Overflow.Append(l.chain, v))
    else
      LeafData(InsertPair(l.pairs, Pair(k, v)), l.chain)
  }

  lemma FindFinds(ps: seq<Pair>, k: Key)
    requires Sorted(ps)
    ensures var i := Find(ps, k);
            if i < |ps| then ps[i].key == k && (forall j :: 0 <= j < i ==> ps[j].key < k)
            else forall j :: 0 <= j < |ps| ==> ps[j].key != k
  {
    var i := LowerBound(ps, k);
    if i < |ps| && ps[i].key != k {
      assert forall j :: i <= j < |ps| ==> ps[j].key >= ps[i].key;
    }
  }

  lemma InsertPairSorted(ps: seq<Pair>, p: Pair)
    requires Sorted(ps)
    ensures Sorted(InsertPair(ps, p))
    ensures |ps| > 0 && p.key < Last(ps).key ==> Last(InsertPair(ps, p)) == Last(ps)
    ensures (|ps| > 0 ==> p.key >= Last(ps).key) ==> InsertPair(ps, p) == ps + [p]
  {
    var i := UpperBound(ps, p.key);
    if |ps| > 0 && p.key >= Last(ps).key {
      assert i == |ps|;
    }
  }

  lemma InsertPairBag(ps: seq<Pair>, p: Pair, k: Key)
    ensures Bag(InsertPair(ps, p), k) == Bag(ps, k) + One(p, k)
  {
    BagInsertAt(ps, UpperBound(ps, p.key), p, k);
  }

  lemma {:induction false} PullAllSorted(ps: seq<Pair>, k: Key, c: Overflow.Chain)
    requires Sorted(ps) && |ps| > 0 && Last(ps).key == k && Overflow.Valid(c)
    ensures var r := PullAll(ps, k, c);
            Sorted(r) && |r| == |ps| + Overflow.Count(c) && Last(r).key == k
    ensures forall q :: q in PullAll(ps, k, c) ==> q in ps || q.key == k
    decreases |Overflow.Flat(c)|
  {
    Overflow.CountIsLength(c);
    if c.Node? {
      var (v, rest) := Overflow.Pull(c);
      Overflow.PullTakesLast(c);
      Overflow.CountIsLength(rest);
      InsertPairSorted(ps, Pair(k, v));
      PullAllSorted(ps + [Pair(k, v)], k, rest);
    }
  }

  lemma {:induction false} PullAllBag(ps: seq<Pair>, k: Key, c: Overflow.Chain, j: Key)
    requires Overflow.Valid(c)
    ensures Bag(PullAll(ps, k, c), j)
         == Bag(ps, j) + (if j == k then multiset(Overflow.Flat(c)) else multiset{})
    decreases |Overflow.Flat(c)|
  {
    if c.Node? {
      var (v, rest) := Overflow.Pull(c);
      Overflow.PullTakesLast(c);
      InsertPairBag(ps, Pair(k, v), j);
      PullAllBag(InsertPair(ps, Pair(k, v)), k, rest, j);
    }
  }

  // ---------------------------------------------------------------- removal

  /** First position from i on that holds the key and, if given, the value. */
  function FirstMatch(ps: seq<Pair>, k: Key, v: Option<Value>, i: nat): (r: nat)
    requires i <= |ps|
    ensures i <= r <= |ps|
    ensures r < |ps| ==> ps[r].key == k && (v.Some? ==> ps[r].value == v.value)
    ensures forall j :: i <= j < r ==> !(ps[j].key == k && (v.Some? ==> ps[j].value == v.value))
    decreases |ps| - i
  {
    if i == |ps| || (ps[i].key == k && (v.Some? ==> ps[i].value == v.value)) then i
    else FirstMatch(ps, k, v, i + 1)
  }

  function Remove(l: LeafData, k: Key, v: Option<Value>): LeafData
    requires Inv(l)
  {
    var i := FirstMatch(l.pairs, k, v, 0);
    if i < |l.pairs| then
      var ps := l.pairs[..i] + l.pairs[i + 1..];
      if i == |ps| && l.chain.Node? then
        var (w, rest) := Overflow.Pull(l.chain);
        LeafData(InsertPair(ps, Pair(k, w)), rest)
      else
        LeafData(ps, l.chain)
    else if l.chain.Node? && Last(l.pairs).key == k && v.Some? then
      LeafData(l.pairs, Overflow.Remove(l.chain, v.value))
    else l
  }

  // ---------------------------------------------------------------- one edit is one step

  /** Applying one edit to a leaf. */
  function Apply(l: LeafData, e: Edit): LeafData
    requires Inv(l)
  {
    match e.op
    case INSERT => Insert(l, e.key, e.value, false)
    case UPSERT => Insert(l, e.key, e.value, true)
    case REMOVE_KEY => Remove(l, e.key, None)
    case REMOVE_KV => Remove(l, e.key, Some(e.value))
  }

  /** The step an edit makes, seen from one key. */
  ghost predicate StepOn(l: LeafData, e: Edit, r: LeafData, k: Key) {
    if k == e.key then Step(e, LeafBag(l, k), LeafBag(r, k)) else LeafBag(r, k) == LeafBag(l, k)
  }

  /** What an edit keeps: the invariant, the keys, and the key of the chain. */
  ghost predicate Keeps(l: LeafData, e: Edit, r: LeafData) {
    && Inv(l) && Inv(r)
    && (forall i :: 0 <= i < |r.pairs| ==> r.pairs[i].key == e.key || HasKey(l.pairs, r.pairs[i].key))
    && (r.chain.Node? ==> l.chain.Node? && Last(r.pairs).key == Last(l.pairs).key)
  }

  ghost predicate HasKey(ps: seq<Pair>, k: Key) {
    exists i :: 0 <= i < |ps| && ps[i].key == k
  }

  // -- insertion

  lemma InsertKeepsFound(l: LeafData, e: Edit)
    requires Inv(l) && e.op == UPSERT && Find(l.pairs, e.key) < |l.pairs|
    ensures Keeps(l, e, Apply(l, e)) && Count(Apply(l, e)) == Count(l)
  {
    var r := Apply(l, e);
    assert forall i :: 0 <= i < |r.pairs| ==> r.pairs[i].key == l.pairs[i].key;
  }

  lemma InsertPairKeys(ps: seq<Pair>, p: Pair)
    ensures forall i :: 0 <= i < |InsertPair(ps, p)| ==>
              InsertPair(ps, p)[i].key == p.key || HasKey(ps, InsertPair(ps, p)[i].key)
  {
    var n := UpperBound(ps, p.key);
    var r := InsertPair(ps, p);
    forall i | 0 <= i < |r|
      ensures r[i].key == p.key || HasKey(ps, r[i].key)
    {
      if i < n { assert r[i] == ps[i]; } else if i > n { assert r[i] == ps[i - 1]; }
    }
  }

  /** A key that is found is not behind the last one. */
  lemma FoundBelow(ps: seq<Pair>, k: Key)
    requires Sorted(ps) && Find(ps, k) < |ps|
    ensures k <= Last(ps).key
  {
    FindFinds(ps, k);
  }

  lemma InsertKeepsNew(l: LeafData, e: Edit)
    requires Inv(l)
    requires e.op == INSERT || (e.op == UPSERT && Find(l.pairs, e.key) == |l.pairs|)
    ensures Keeps(l, e, Apply(l, e)) && Count(Apply(l, e)) == Count(l) + 1
  {
    var i := Find(l.pairs, e.key);
    FindFinds(l.pairs, e.key);
    var p := Pair(e.key, e.value);
    if i == |l.pairs| && l.chain.Node? {
      PullsIn(l, p);
    } else if i == |l.pairs| - 1 && l.chain.Node? {
      Overflow.AppendAdds(l.chain, e.value);
    } else {
      InsertPairSorted(l.pairs, p);
      InsertPairKeys(l.pairs, p);
      if l.chain.Node? {
        FoundBelow(l.pairs, e.key);
      }
    }
  }

  /** A new key behind the chain brings the whole chain into the leaf. */
  lemma PullsIn(l: LeafData, p: Pair)
    requires Inv(l) && l.chain.Node?
    ensures var qs := PullAll(l.pairs, Last(l.pairs).key, l.chain);
            && Sorted(InsertPair(qs, p)) && |InsertPair(qs, p)| == Count(l) + 1
            && forall i :: 0 <= i < |InsertPair(qs, p)| ==>
                 InsertPair(qs, p)[i].key == p.key || HasKey(l.pairs, InsertPair(qs, p)[i].key)
  {
    var o := Last(l.pairs).key;
    var qs := PullAll(l.pairs, o, l.chain);
    PullAllSorted(l.pairs, o, l.chain);
    InsertPairSorted(qs, p);
    InsertPairKeys(qs, p);
    forall i | 0 <= i < |qs|
      ensures HasKey(l.pairs, qs[i].key)
    {
      assert qs[i] in qs;
      assert Last(l.pairs) in l.pairs;
    }
  }

  lemma Exchange(a: Values, b: Values, x: Value, v: Value)
    requires a + multiset{x} == b + multiset{v} && x in b
    ensures a == b - multiset{x} + multiset{v}
  {
    assert b - multiset{x} + multiset{x} == b;
    assert a + multiset{x} == (b - multiset{x} + multiset{v}) + multiset{x};
    assert forall y :: (a + multiset{x})[y] == a[y] + multiset{x}[y];
  }

  lemma UpsertBag(l: LeafData, e: Edit, k: Key)
    requires Inv(l) && e.op == UPSERT && Find(l.pairs, e.key) < |l.pairs|
    ensures var i := Find(l.pairs, e.key); var r := Apply(l, e);
            && Bag(r.pairs, k) + One(l.pairs[i], k) == Bag(l.pairs, k) + One(Pair(e.key, e.value), k)
            && l.pairs[i].key == e.key && ChainBag(r, k) == ChainBag(l, k)
            && l.pairs[i].value in Bag(l.pairs, e.key)
  {
    var i := Find(l.pairs, e.key);
    BagUpdateAt(l.pairs, i, Pair(e.key, e.value), k);
    BagHolds(l.pairs, e.key, l.pairs[i].value);
    assert l.pairs[i] in l.pairs;
  }

  lemma ExchangeIsStep(e: Edit, b: Values, c: Values, x: Value)
    requires e.op == UPSERT && x in b && c == b - multiset{x} + multiset{e.value}
    ensures Step(e, b, c)
  {
  }

  lemma Exchanged(a: Values, b: Values, c: Values, x: Value, v: Value)
    requires x in b && a + multiset{x} == b + multiset{v}
    ensures a + c == (b + c) - multiset{x} + multiset{v} && x in b + c && |a + c| == |b + c|
  {
    Exchange(a, b, x, v);
  }

  lemma UpsertStep(l: LeafData, e: Edit, k: Key)
    requires Inv(l) && e.op == UPSERT && Find(l.pairs, e.key) < |l.pairs|
    ensures StepOn(l, e, Apply(l, e), k)
    ensures |LeafBag(Apply(l, e), k)| == |LeafBag(l, k)|
  {
    UpsertBag(l, e, k);
    var x, r := l.pairs[Find(l.pairs, e.key)], Apply(l, e);
    var b, c, d := Bag(l.pairs, k), Bag(r.pairs, k), ChainBag(l, k);
    assert LeafBag(l, k) == b + d && LeafBag(r, k) == c + d;
    if k == e.key {
      Exchanged(c, b, d, x.value, e.value);
      ExchangeIsStep(e, b + d, c + d, x.value);
    } else {
      assert One(x, k) == multiset{} && One(Pair(e.key, e.value), k) == multiset{};
      assert b == b + multiset{} == c + multiset{} == c;
    }
  }

  lemma PullInBag(l: LeafData, p: Pair, k: Key)
    requires Inv(l) && l.chain.Node?
    ensures Bag(InsertPair(PullAll(l.pairs, Last(l.pairs).key, l.chain), p), k) == LeafBag(l, k) + One(p, k)
  {
    var o := Last(l.pairs).key;
    PullAllBag(l.pairs, o, l.chain, k);
    InsertPairBag(PullAll(l.pairs, o, l.chain), p, k);
  }

  lemma InsertBeforeBag(l: LeafData, p: Pair, k: Key)
    requires Inv(l) && (l.chain.Node? ==> p.key <= Last(l.pairs).key)
    ensures LeafBag(LeafData(InsertPair(l.pairs, p), l.chain), k) == LeafBag(l, k) + One(p, k)
  {
    InsertPairSorted(l.pairs, p);
    InsertPairBag(l.pairs, p, k);
  }

  lemma AddPulls(l: LeafData, p: Pair, k: Key)
    requires Inv(l) && l.chain.Node?
    ensures LeafBag(LeafData(InsertPair(PullAll(l.pairs, Last(l.pairs).key, l.chain), p), Overflow.End), k)
         == LeafBag(l, k) + One(p, k)
  {
    hide Bag, InsertPair, PullAll;
    PullInBag(l, p, k);
    assert multiset(Overflow.Flat(Overflow.End)) == multiset{};
  }

  lemma AddAppends(l: LeafData, p: Pair, k: Key)
    requires Inv(l) && l.chain.Node? && p.key == Last(l.pairs).key
    ensures LeafBag(LeafData(l.pairs, Overflow.Append(l.chain, p.value)), k) == LeafBag(l, k) + One(p, k)
  {
    hide Bag, Overflow.Flat, Overflow.Append;
    Overflow.AppendAdds(l.chain, p.value);
  }

  lemma AddStep(l: LeafData, e: Edit, k: Key)
    requires Inv(l)
    requires e.op == INSERT || (e.op == UPSERT && Find(l.pairs, e.key) == |l.pairs|)
    ensures LeafBag(Apply(l, e), k) == LeafBag(l, k) + One(Pair(e.key, e.value), k)
  {
    hide LeafBag, One, InsertPair, Find, PullAll, Overflow.Append;
    var i := Find(l.pairs, e.key);
    FindFinds(l.pairs, e.key);
    var p := Pair(e.key, e.value);
    if i == |l.pairs| && l.chain.Node? {
      AddPulls(l, p, k);
    } else if i == |l.pairs| - 1 && l.chain.Node? {
      AddAppends(l, p, k);
    } else {
      if l.chain.Node? {
        FoundBelow(l.pairs, e.key);
      }
      InsertBeforeBag(l, p, k);
    }
  }

  lemma InsertStep(l: LeafData, e: Edit, k: Key)
    requires Inv(l)
    requires e.op == INSERT || (e.op == UPSERT && Find(l.pairs, e.key) == |l.pairs|)
    ensures StepOn(l, e, Apply(l, e), k)
  {
    AddStep(l, e, k);
    if e.op == UPSERT && k == e.key {
      FindFinds(l.pairs, k);
      BagEmpty(l.pairs, k);
      assert LeafBag(l, k) == multiset{};
    }
  }

  // -- removal

  /** Removing the last pair of a leaf with a chain refills it from the chain. */
  lemma Refill(l: LeafData, k: Key)
    requires Inv(l) && l.chain.Node? && k == Last(l.pairs).key
    ensures var ps := l.pairs[..|l.pairs| - 1]; var (w, rest) := Overflow.Pull(l.chain);
            && InsertPair(ps, Pair(k, w)) == ps + [Pair(k, w)]
            && Inv(LeafData(ps + [Pair(k, w)], rest))
            && |Overflow.Flat(l.chain)| == Overflow.Count(l.chain) == Overflow.Count(rest) + 1
            && multiset(Overflow.Flat(l.chain)) == multiset(Overflow.Flat(rest)) + multiset{w}
  {
    var ps := l.pairs[..|l.pairs| - 1];
    Overflow.PullTakesLast(l.chain);
    var (w, rest) := Overflow.Pull(l.chain);
    Overflow.CountIsLength(l.chain);
    Overflow.CountIsLength(rest);
    InsertPairSorted(ps, Pair(k, w));
  }

  lemma RemoveHere(l: LeafData, k: Key, i: nat) returns (ps: seq<Pair>)
    requires Inv(l) && i < |l.pairs|
    ensures ps == l.pairs[..i] + l.pairs[i + 1..] && Sorted(ps) && |ps| == |l.pairs| - 1
    ensures i == |ps| ==> ps == l.pairs[..|l.pairs| - 1]
    ensures i < |ps| ==> Last(ps) == Last(l.pairs)
    ensures Bag(l.pairs, k) == Bag(ps, k) + One(l.pairs[i], k)
    ensures forall j :: 0 <= j < |ps| ==> HasKey(l.pairs, ps[j].key)
  {
    hide Bag;
    ps := l.pairs[..i] + l.pairs[i + 1..];
    BagAt(l.pairs, i, k);
    forall j | 0 <= j < |ps|
      ensures HasKey(l.pairs, ps[j].key)
    {
      if j < i { assert ps[j] == l.pairs[j]; } else { assert ps[j] == l.pairs[j + 1]; }
    }
  }

  lemma KeepsRefill(l: LeafData, e: Edit, ps: seq<Pair>, w: Value, r: LeafData)
    requires Inv(l) && Inv(r) && l.chain.Node?
    requires r.pairs == ps + [Pair(e.key, w)] && e.key == Last(l.pairs).key
    requires forall j :: 0 <= j < |ps| ==> HasKey(l.pairs, ps[j].key)
    ensures Keeps(l, e, r)
  {
  }

  lemma RemoveKeepsHere(l: LeafData, e: Edit, v: Option<Value>)
    requires Inv(l) && FirstMatch(l.pairs, e.key, v, 0) < |l.pairs|
    ensures Keeps(l, e, Remove(l, e.key, v)) && Count(Remove(l, e.key, v)) == Count(l) - 1
  {
    var i := FirstMatch(l.pairs, e.key, v, 0);
    var ps := RemoveHere(l, e.key, i);
    var r := Remove(l, e.key, v);
    if l.chain.Node? && i == |ps| {
      Refill(l, e.key);
      KeepsRefill(l, e, ps, Overflow.Pull(l.chain).0, r);
    } else {
      assert r == LeafData(ps, l.chain);
    }
  }

  lemma RefilledBag(l: LeafData, j: Key, k: Key)
    requires Inv(l) && l.chain.Node? && j == Last(l.pairs).key
    ensures var ps := l.pairs[..|l.pairs| - 1]; var (w, rest) := Overflow.Pull(l.chain);
            Bag(ps, k) + ChainBag(l, k) == LeafBag(LeafData(InsertPair(ps, Pair(j, w)), rest), k)
  {
    hide Bag, Overflow.Flat, InsertPair;
    Refill(l, j);
    var ps := l.pairs[..|l.pairs| - 1];
    var (w, rest) := Overflow.Pull(l.chain);
    InsertPairBag(ps, Pair(j, w), k);
    assert Last(ps + [Pair(j, w)]).key == j;
  }

  lemma RemoveHereBag(l: LeafData, e: Edit, v: Option<Value>, k: Key)
    requires Inv(l) && FirstMatch(l.pairs, e.key, v, 0) < |l.pairs|
    ensures LeafBag(l, k) == LeafBag(Remove(l, e.key, v), k) + One(l.pairs[FirstMatch(l.pairs, e.key, v, 0)], k)
  {
    hide Bag, One, Sorted, InsertPair, FirstMatch;
    var i := FirstMatch(l.pairs, e.key, v, 0);
    var ps := RemoveHere(l, k, i);
    if l.chain.Node? && i == |ps| {
      RefilledBag(l, e.key, k);
    } else {
      assert Remove(l, e.key, v) == LeafData(ps, l.chain);
      assert l.chain.Node? ==> Last(ps) == Last(l.pairs);
    }
  }

  lemma RemoveChainBag(l: LeafData, v: Value, k: Key)
    requires Inv(l) && l.chain.Node?
    requires v !in Bag(l.pairs, Last(l.pairs).key)
    ensures var r := LeafData(l.pairs, Overflow.Remove(l.chain, v));
            LeafBag(r, k) == if k == Last(l.pairs).key then LeafBag(l, k) - multiset{v} else LeafBag(l, k)
  {
    hide Bag, Last, Overflow.Flat, Overflow.Pull, Overflow.Remove, Overflow.Valid, Sorted;
    Overflow.RemoveDropsOne(l.chain, v);
  }

  lemma RemoveStep(l: LeafData, e: Edit, k: Key)
    requires Inv(l) && (e.op == REMOVE_KEY || e.op == REMOVE_KV)
    ensures StepOn(l, e, Apply(l, e), k)
  {
    hide LeafBag, Step;
    var v := if e.op == REMOVE_KEY then None else Some(e.value);
    var i := FirstMatch(l.pairs, e.key, v, 0);
    if i < |l.pairs| {
      RemoveHereBag(l, e, v, k);
      RemovedIsStep(e, v, LeafBag(l, k), LeafBag(Apply(l, e), k), l.pairs[i].value, k);
    } else if e.op == REMOVE_KEY {
      RemoveNoKey(l, e, k);
    } else {
      RemoveElsewhere(l, e, k);
    }
  }

  lemma RemovedIsStep(e: Edit, v: Option<Value>, b: Values, c: Values, x: Value, k: Key)
    requires v == if e.op == REMOVE_KEY then None else Some(e.value)
    requires e.op == REMOVE_KEY || e.op == REMOVE_KV
    requires v.Some? ==> x == v.value
    requires b == c + One(Pair(e.key, x), k)
    ensures if k == e.key then Step(e, b, c) else c == b
  {
    if k == e.key {
      assert x in b && c == b - multiset{x};
    }
  }

  lemma RemoveNoKey(l: LeafData, e: Edit, k: Key)
    requires Inv(l) && e.op == REMOVE_KEY && FirstMatch(l.pairs, e.key, None, 0) == |l.pairs|
    ensures StepOn(l, e, Apply(l, e), k) && Apply(l, e) == l && LeafBag(l, e.key) == multiset{}
  {
    BagEmpty(l.pairs, e.key);
  }

  lemma RemoveElsewhere(l: LeafData, e: Edit, k: Key)
    requires Inv(l) && e.op == REMOVE_KV && FirstMatch(l.pairs, e.key, Some(e.value), 0) == |l.pairs|
    ensures StepOn(l, e, Apply(l, e), k)
  {
    BagHolds(l.pairs, e.key, e.value);
    if l.chain.Node? && Last(l.pairs).key == e.key {
      RemoveChainBag(l, e.value, k);
    } else {
      assert e.value !in LeafBag(l, e.key);
      assert LeafBag(l, e.key) - multiset{e.value} == LeafBag(l, e.key);
    }
  }

  lemma RemoveKeeps(l: LeafData, e: Edit)
    requires Inv(l) && (e.op == REMOVE_KEY || e.op == REMOVE_KV)
    ensures Keeps(l, e, Apply(l, e))
  {
    var v := if e.op == REMOVE_KEY then None else Some(e.value);
    var r := Apply(l, e);
    if FirstMatch(l.pairs, e.key, v, 0) < |l.pairs| {
      RemoveKeepsHere(l, e, v);
    } else {
      if l.chain.Node? && v.Some? {
        Overflow.RemoveDropsOne(l.chain, e.value);
      }
      assert r.pairs == l.pairs;
    }
  }

  /**
   * Editing a leaf is one step of the reference on the edit's key and leaves
   * every other key alone.
   */
  lemma ApplyStep(l: LeafData, e: Edit, k: Key)
    requires Inv(l)
    ensures StepOn(l, e, Apply(l, e), k)
  {
    if e.op == UPSERT && Find(l.pairs, e.key) < |l.pairs| {
      UpsertStep(l, e, k);
    } else if e.op == INSERT || e.op == UPSERT {
      InsertStep(l, e, k);
    } else {
      RemoveStep(l, e, k);
    }
  }

  /** Editing keeps the invariant, adds no key but the edit's, and never starts a chain. */
  lemma ApplyKeeps(l: LeafData, e: Edit)
    requires Inv(l)
    ensures Keeps(l, e, Apply(l, e))
  {
    if e.op == UPSERT && Find(l.pairs, e.key) < |l.pairs| {
      InsertKeepsFound(l, e);
    } else if e.op == INSERT || e.op == UPSERT {
      InsertKeepsNew(l, e);
    } else {
      RemoveKeeps(l, e);
    }
  }

  /** The item count moves by exactly what the step does to the bag of the key. */
  lemma ApplyCounts(l: LeafData, e: Edit)
    requires Inv(l)
    ensures Count(Apply(l, e)) - Count(l) == |LeafBag(Apply(l, e), e.key)| - |LeafBag(l, e.key)|
  {
    if e.op == UPSERT && Find(l.pairs, e.key) < |l.pairs| {
      InsertKeepsFound(l, e);
      UpsertStep(l, e, e.key);
    } else if e.op == INSERT || e.op == UPSERT {
      InsertKeepsNew(l, e);
      AddStep(l, e, e.key);
    } else {
      RemoveCounts(l, e);
    }
  }

  lemma RemoveCounts(l: LeafData, e: Edit)
    requires Inv(l) && (e.op == REMOVE_KEY || e.op == REMOVE_KV)
    ensures Count(Apply(l, e)) - Count(l) == |LeafBag(Apply(l, e), e.key)| - |LeafBag(l, e.key)|
  {
    var v := if e.op == REMOVE_KEY then None else Some(e.value);
    if FirstMatch(l.pairs, e.key, v, 0) < |l.pairs| {
      RemoveKeepsHere(l, e, v);
      RemoveHereBag(l, e, v, e.key);
    } else if l.chain.Node? && Last(l.pairs).key == e.key && v.Some? {
      Overflow.RemoveDropsOne(l.chain, e.value);
      Overflow.CountIsLength(l.chain);
      Overflow.CountIsLength(Overflow.Remove(l.chain, e.value));
    } else {
      assert Apply(l, e) == l;
    }
  }

  /** A leaf that keeps its invariant. */
  type Valid = l: LeafData | Inv(l) witness LeafData([], Overflow.End)

  function Edited(l: Valid, e: Edit): (r: Valid)
    ensures Keeps(l, e, r)
  {
    ApplyKeeps(l, e);
    Apply(l, e)
  }
}
