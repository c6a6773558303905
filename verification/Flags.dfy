/**
 * What the values a tree gives out do not depend on: guaranteed flags, stored
 * counts, ids, and which nodes happen to be in memory.
 */
module Flags {
  import opened Types
  import opened Multimap
  import opened Tree
  import opened Meaning
  import opened Lookup
  import Leaves
  import Overflow

  function PlainEdit(e: Edit): Edit { e.(guaranteed := false) }

  function PlainEdits(es: seq<Edit>): (r: seq<Edit>)
    ensures |r| == |es| && forall i :: 0 <= i < |es| ==> r[i] == PlainEdit(es[i])
  {
    seq(|es|, i requires 0 <= i < |es| => PlainEdit(es[i]))
  }

  function PlainChain(c: Overflow.Chain): Overflow.Chain {
    if c.End? then c else Overflow.Node(c.count, 0, false, c.values, PlainChain(c.next))
  }

  lemma {:induction false} PlainChainKeeps(c: Overflow.Chain)
    ensures Overflow.Flat(PlainChain(c)) == Overflow.Flat(c)
    ensures Overflow.Count(PlainChain(c)) == Overflow.Count(c)
    ensures Overflow.Valid(PlainChain(c)) == Overflow.Valid(c)
  {
    if c.Node? {
      PlainChainKeeps(c.next);
    }
  }

  function PlainLeaf(l: Leaves.Valid): Leaves.Valid {
    PlainChainKeeps(l.chain);
    Leaves.LeafData(l.pairs, PlainChain(l.chain))
  }

  /** The tree without its flags, counts and ids. */
  function Plain(n: Node): Node {
    match n
    case Leaf(l) => Leaf(PlainLeaf(l))
    case Internal(bs, q) =>
      Internal(seq(|bs|, i requires 0 <= i < |bs| => Branch(bs[i].minKey, 0, 0, false, Plain(bs[i].child))),
        PlainEdits(q))
  }

  function PlainBranches(bs: seq<Branch>): (r: seq<Branch>)
    ensures |r| == |bs|
    ensures forall i :: 0 <= i < |bs| ==> r[i] == Branch(bs[i].minKey, 0, 0, false, Plain(bs[i].child))
  {
    seq(|bs|, i requires 0 <= i < |bs| => Branch(bs[i].minKey, 0, 0, false, Plain(bs[i].child)))
  }

  lemma PlainIs(n: Node)
    requires n.Internal?
    ensures Plain(n) == Internal(PlainBranches(n.branches), PlainEdits(n.queue))
  {
    assert Plain(n).branches == PlainBranches(n.branches);
  }

  /** Trees that differ in flags, counts and ids at most. */
  ghost predicate Like(n: Node, m: Node) { Plain(n) == Plain(m) }

  ghost predicate LikeEdits(es: seq<Edit>, fs: seq<Edit>) {
    |es| == |fs| && forall i :: 0 <= i < |es| ==> PlainEdit(es[i]) == PlainEdit(fs[i])
  }

  ghost predicate LikeBranches(bs: seq<Branch>, cs: seq<Branch>) {
    |bs| == |cs| && forall i :: 0 <= i < |bs| ==> bs[i].minKey == cs[i].minKey && Like(bs[i].child, cs[i].child)
  }

  lemma LikeParts(n: Node, m: Node)
    ensures Like(n, m) <==>
      match n
      case Leaf(l) => m.Leaf? && PlainLeaf(l) == PlainLeaf(m.leaf)
      case Internal(bs, q) => m.Internal? && LikeBranches(bs, m.branches) && LikeEdits(q, m.queue)
  {
    if n.Internal? && m.Internal? {
      PlainIs(n);
      PlainIs(m);
      var a, b, q, r := PlainBranches(n.branches), PlainBranches(m.branches), PlainEdits(n.queue), PlainEdits(m.queue);
      if LikeBranches(n.branches, m.branches) && LikeEdits(n.queue, m.queue) {
        assert a == b && q == r;
      }
      if Like(n, m) {
        assert forall i :: 0 <= i < |n.branches| ==> a[i] == b[i];
        assert forall i :: 0 <= i < |n.queue| ==> q[i] == r[i];
      }
    }
  }

  // ---------------------------------------------------------------- chains and leaves

  lemma {:induction false} PullPlain(c: Overflow.Chain)
    requires c.Node? && Overflow.Valid(c)
    ensures Overflow.Valid(PlainChain(c))
    ensures Overflow.Pull(PlainChain(c)).0 == Overflow.Pull(c).0
    ensures PlainChain(Overflow.Pull(PlainChain(c)).1) == PlainChain(Overflow.Pull(c).1)
  {
    PlainChainKeeps(c);
    if c.next.Node? {
      PullPlain(c.next);
      PlainCount(Overflow.Pull(PlainChain(c.next)).1, Overflow.Pull(c.next).1);
    }
  }

  lemma PlainCount(c: Overflow.Chain, d: Overflow.Chain)
    requires PlainChain(c) == PlainChain(d)
    ensures Overflow.Count(c) == Overflow.Count(d)
  {
    PlainChainKeeps(c);
    PlainChainKeeps(d);
  }

  lemma PullLike(c: Overflow.Chain, d: Overflow.Chain)
    requires c.Node? && Overflow.Valid(c) && Overflow.Valid(d) && PlainChain(c) == PlainChain(d)
    ensures d.Node? && Overflow.Pull(c).0 == Overflow.Pull(d).0
    ensures PlainChain(Overflow.Pull(c).1) == PlainChain(Overflow.Pull(d).1)
  {
    PullPlain(c);
    PullPlain(d);
  }

  lemma {:induction false} PullAllLike(ps: seq<Pair>, k: Key, c: Overflow.Chain, d: Overflow.Chain)
    requires Overflow.Valid(c) && Overflow.Valid(d) && PlainChain(c) == PlainChain(d)
    ensures Leaves.PullAll(ps, k, c) == Leaves.PullAll(ps, k, d)
    decreases |Overflow.Flat(c)|
  {
    if c.Node? {
      PullLike(c, d);
      Overflow.PullTakesLast(c);
      Overflow.PullTakesLast(d);
      var (v, rest) := Overflow.Pull(c);
      PullAllLike(Leaves.InsertPair(ps, Pair(k, v)), k, rest, Overflow.Pull(d).1);
    }
  }

  lemma {:induction false} RemoveLike(c: Overflow.Chain, d: Overflow.Chain, v: Value)
    requires Overflow.Valid(c) && Overflow.Valid(d) && PlainChain(c) == PlainChain(d)
    ensures PlainChain(Overflow.Remove(c, v)) == PlainChain(Overflow.Remove(d, v))
    ensures Overflow.Count(Overflow.Remove(c, v)) == Overflow.Count(Overflow.Remove(d, v))
  {
    if c.Node? {
      PlainCount(c.next, d.next);
      if Overflow.IndexOf(c.values, v) == |c.values| {
        RemoveLike(c.next, d.next, v);
      } else if c.next.Node? {
        PullLike(c.next, d.next);
        PlainCount(Overflow.Pull(c.next).1, Overflow.Pull(d.next).1);
      }
    }
  }

  lemma LeafLike(l: Leaves.Valid, m: Leaves.Valid, e: Edit, f: Edit)
    requires PlainLeaf(l) == PlainLeaf(m) && PlainEdit(e) == PlainEdit(f)
    ensures PlainLeaf(Leaves.Edited(l, e)) == PlainLeaf(Leaves.Edited(m, f))
  {
    hide Leaves.Inv, Leaves.Keeps, Leaves.PullAll, Leaves.InsertPair, Leaves.Find, Overflow.Valid, Overflow.Pull,
      Overflow.Remove;
    assert l.pairs == m.pairs && e.op == f.op && e.key == f.key && e.value == f.value;
    LeafInv(l);
    LeafInv(m);
    PlainCount(l.chain, m.chain);
    if e.op == INSERT || e.op == UPSERT {
      InsertLike(l, m, e.key, e.value, e.op == UPSERT);
    } else {
      ErasedLike(l, m, e.key, if e.op == REMOVE_KEY then None else Some(e.value));
    }
  }

  lemma LeafInv(l: Leaves.Valid)
    ensures Leaves.Inv(l) && Overflow.Valid(l.chain) && (l.chain.Node? ==> |l.pairs| > 0)
  {
  }

  lemma InsertLike(l: Leaves.Valid, m: Leaves.Valid, k: Key, v: Value, upsert: bool)
    requires l.pairs == m.pairs && PlainChain(l.chain) == PlainChain(m.chain)
    ensures var a, b := Leaves.Insert(l, k, v, upsert), Leaves.Insert(m, k, v, upsert);
            a.pairs == b.pairs && PlainChain(a.chain) == PlainChain(b.chain)
  {
    hide Leaves.PullAll, Leaves.InsertPair, Leaves.Find, Sorted;
    if l.chain.Node? {
      PullAllLike(l.pairs, Last(l.pairs).key, l.chain, m.chain);
      PlainCount(l.chain.next, m.chain.next);
    }
  }

  lemma ErasedLike(l: Leaves.Valid, m: Leaves.Valid, k: Key, v: Option<Value>)
    requires l.pairs == m.pairs && PlainChain(l.chain) == PlainChain(m.chain)
    ensures var a, b := Leaves.Remove(l, k, v), Leaves.Remove(m, k, v);
            a.pairs == b.pairs && PlainChain(a.chain) == PlainChain(b.chain)
  {
    hide Leaves.InsertPair, Leaves.FirstMatch, Sorted, Overflow.Remove, Overflow.Pull;
    if l.chain.Node? {
      PullLike(l.chain, m.chain);
      if v.Some? {
        RemoveLike(l.chain, m.chain, v.value);
      }
    }
  }

  // ---------------------------------------------------------------- edits

  lemma {:induction false} UpperLike(q: seq<Edit>, r: seq<Edit>, k: Key)
    requires LikeEdits(q, r)
    ensures EditUpper(q, k) == EditUpper(r, k) && EditLower(q, k) == EditLower(r, k)
  {
    if |q| > 0 {
      assert PlainEdit(q[0]) == PlainEdit(r[0]);
      assert LikeEdits(q[1..], r[1..]);
      UpperLike(q[1..], r[1..], k);
    }
  }

  lemma SliceLike(q: seq<Edit>, r: seq<Edit>, a: nat, b: nat)
    requires LikeEdits(q, r) && b <= |q|
    ensures LikeEdits(Between(q, a, b), Between(r, a, b)) && LikeEdits(Except(q, a, b), Except(r, a, b))
  {
    if a <= b {
      forall i | 0 <= i < |q| - (b - a)
        ensures PlainEdit((q[..a] + q[b..])[i]) == PlainEdit((r[..a] + r[b..])[i])
      {
        var j := if i < a then i else i + (b - a);
        assert (q[..a] + q[b..])[i] == q[j] && (r[..a] + r[b..])[i] == r[j];
      }
    }
  }

  lemma InsertedLike(q: seq<Edit>, r: seq<Edit>, i: nat, e: Edit, f: Edit)
    requires LikeEdits(q, r) && PlainEdit(e) == PlainEdit(f) && i <= |q|
    ensures LikeEdits(q[..i] + [e] + q[i..], r[..i] + [f] + r[i..])
  {
    var x, y := q[..i] + [e] + q[i..], r[..i] + [f] + r[i..];
    forall j | 0 <= j < |q| + 1
      ensures PlainEdit(x[j]) == PlainEdit(y[j])
    {
      if j < i { assert x[j] == q[j] && y[j] == r[j]; } else if j > i { assert x[j] == q[j - 1] && y[j] == r[j - 1]; }
    }
  }

  lemma EnqueueLike(q: seq<Edit>, r: seq<Edit>, e: Edit, f: Edit)
    requires LikeEdits(q, r) && PlainEdit(e) == PlainEdit(f)
    ensures LikeEdits(Enqueue(q, e), Enqueue(r, f))
  {
    hide LikeEdits;
    UpperLike(q, r, e.key);
    assert f.key == e.key;
    LikeLength(q, r);
    InsertedLike(q, r, EditUpper(q, e.key), e, f);
  }

  lemma SetChildLike(bs: seq<Branch>, cs: seq<Branch>, i: nat, c: Node, d: Node)
    requires LikeBranches(bs, cs) && i < |bs| && Like(c, d)
    ensures LikeBranches(SetChild(bs, i, c), SetChild(cs, i, d))
    ensures LikeBranches(bs[i := bs[i].(child := c)], cs[i := cs[i].(child := d)])
  {
  }

  /** The same edit, with whatever flag, leaves like trees alike. */
  lemma {:induction false} ApplyLike(n: Node, m: Node, e: Edit, f: Edit, deep: bool)
    requires Like(n, m) && PlainEdit(e) == PlainEdit(f)
    ensures Like(Apply(n, e, deep), Apply(m, f, deep))
    decreases n
  {
    hide Plain, LikeBranches, LikeEdits, Enqueue, Route;
    LikeParts(n, m);
    LikeParts(Apply(n, e, deep), Apply(m, f, deep));
    assert e.key == f.key;
    match n
    case Leaf(l) => LeafLike(l, m.leaf, e, f);
    case Internal(bs, q) =>
      if !deep {
        EnqueueLike(q, m.queue, e, f);
      } else {
        LikeSame(bs, m.branches, e.key);
        if |bs| > 0 {
          var i := Route(bs, e.key);
          ApplyLike(bs[i].child, m.branches[i].child, e, f, deep);
          SetChildLike(bs, m.branches, i, Apply(bs[i].child, e, deep), Apply(m.branches[i].child, f, deep));
        }
      }
  }

  lemma LikeSame(bs: seq<Branch>, cs: seq<Branch>, k: Key)
    requires LikeBranches(bs, cs)
    ensures |bs| == |cs| && Route(bs, k) == Route(cs, k)
    ensures forall i :: 0 <= i < |bs| ==> bs[i].minKey == cs[i].minKey && Like(bs[i].child, cs[i].child)
  {
    RouteSame(bs, cs, k);
  }

  lemma {:induction false} ManyLike(n: Node, m: Node, es: seq<Edit>, fs: seq<Edit>, deep: bool)
    requires Like(n, m) && LikeEdits(es, fs)
    ensures Like(ApplyMany(n, es, deep), ApplyMany(m, fs, deep))
    decreases |es|
  {
    hide Plain;
    if |es| > 0 {
      assert PlainEdit(es[0]) == PlainEdit(fs[0]);
      ApplyLike(n, m, es[0], fs[0], deep);
      assert LikeEdits(es[1..], fs[1..]);
      ManyLike(Apply(n, es[0], deep), Apply(m, fs[0], deep), es[1..], fs[1..], deep);
    }
  }

  lemma PendLike(q: seq<Edit>, r: seq<Edit>, lo: Option<Key>, hi: Option<Key>)
    requires LikeEdits(q, r)
    ensures PendFrom(q, lo) == PendFrom(r, lo) && PendTo(q, hi) == PendTo(r, hi)
  {
    if lo.Some? { UpperLike(q, r, lo.value); }
    if hi.Some? { UpperLike(q, r, hi.value); }
  }

  lemma PushLike(n: Node, m: Node, i: nat, lo: Option<Key>, hi: Option<Key>, deep: bool)
    requires Like(n, m) && n.Internal? && i < |n.branches|
    ensures m.Internal? && |m.branches| == |n.branches|
    ensures Like(Push(n, i, lo, hi, deep), Push(m, i, lo, hi, deep))
    ensures ForkLo(n.branches, i, lo) == ForkLo(m.branches, i, lo)
    ensures ForkHi(n.branches, i, hi) == ForkHi(m.branches, i, hi)
  {
    hide Plain, LikeEdits, LikeBranches, SetChild, Between, Except, PendFrom, PendTo;
    LikeParts(n, m);
    LikeSame(n.branches, m.branches, 0);
    var flo, fhi := ForkLo(n.branches, i, lo), ForkHi(n.branches, i, hi);
    PendLike(n.queue, m.queue, flo, fhi);
    var a, b := PendFrom(n.queue, flo), PendTo(n.queue, fhi);
    SliceLike(n.queue, m.queue, a, b);
    LikeLength(n.queue, m.queue);
    var es, fs := Between(n.queue, a, b), Between(m.queue, a, b);
    ManyLike(n.branches[i].child, m.branches[i].child, es, fs, deep);
    SetChildLike(n.branches, m.branches, i, ApplyMany(n.branches[i].child, es, deep),
      ApplyMany(m.branches[i].child, fs, deep));
    LikeParts(Push(n, i, lo, hi, deep), Push(m, i, lo, hi, deep));
  }

  lemma LikeLength(q: seq<Edit>, r: seq<Edit>)
    requires LikeEdits(q, r)
    ensures |q| == |r|
  {
  }

  // ---------------------------------------------------------------- finding

  lemma PutChildLike(n: Node, m: Node, i: nat, c: Node, d: Node)
    requires Like(n, m) && n.Internal? && i < |n.branches| && Like(c, d)
    ensures m.Internal? && |m.branches| == |n.branches|
    ensures Like(PutChild(n, i, c), PutChild(m, i, d))
  {
    hide Plain, LikeEdits, LikeBranches;
    LikeParts(n, m);
    LikeSame(n.branches, m.branches, 0);
    SetChildLike(n.branches, m.branches, i, c, d);
    LikeParts(PutChild(n, i, c), PutChild(m, i, d));
  }

  lemma {:induction false} FindLike(n: Node, m: Node, key: Option<Key>, lo: Option<Key>, hi: Option<Key>)
    requires Like(n, m)
    ensures Like(Find(n, key, lo, hi), Find(m, key, lo, hi))
    decreases Height(n)
  {
    hide Plain, LikeEdits, LikeBranches, Push, Route;
    LikeParts(n, m);
    if n.Internal? {
      LikeSame(n.branches, m.branches, if key.Some? then key.value else 0);
      if |n.branches| > 0 {
        var i := if key.Some? then Route(n.branches, key.value) else 0;
        PushLike(n, m, i, lo, hi, false);
        var p, r := Push(n, i, lo, hi, false), Push(m, i, lo, hi, false);
        PushedHeight(n, i, lo, hi, false);
        ChildHeight(p, i);
        LikeParts(p, r);
        LikeSame(p.branches, r.branches, 0);
        var flo, fhi := ForkLo(n.branches, i, lo), ForkHi(n.branches, i, hi);
        FindLike(p.branches[i].child, r.branches[i].child, key, flo, fhi);
        PutChildLike(p, r, i, Find(p.branches[i].child, key, flo, fhi), Find(r.branches[i].child, key, flo, fhi));
      }
    }
  }

  lemma {:induction false} ValueLike(n: Node, m: Node, k: Key)
    requires Like(n, m)
    ensures LeafFor(n, k).pairs == LeafFor(m, k).pairs && ValueAt(n, k) == ValueAt(m, k)
    decreases n
  {
    hide LikeEdits, LikeBranches, Plain;
    LikeParts(n, m);
    if n.Internal? {
      LikeSame(n.branches, m.branches, k);
      if |n.branches| > 0 {
        var i := Route(n.branches, k);
        ValueLike(n.branches[i].child, m.branches[i].child, k);
      }
    }
  }

  // ---------------------------------------------------------------- runs

  predicate LikeCalls(a: seq<Call>, b: seq<Call>) {
    |a| == |b| && forall i :: 0 <= i < |a| ==>
      match a[i]
      case Change(e) => b[i].Change? && PlainEdit(e) == PlainEdit(b[i].edit)
      case Query(_) => a[i] == b[i]
  }

  /**
   * The answers of a run depend neither on the guaranteed flags of the edits,
   * nor on the flags, counts and ids of the tree it starts from.
   */
  lemma {:induction false} AnswersIgnoreFlags(n: Node, m: Node, a: seq<Call>, b: seq<Call>)
    requires Like(n, m) && LikeCalls(a, b)
    ensures Run(n, a).1 == Run(m, b).1 && Like(Run(n, a).0, Run(m, b).0)
    decreases |a|
  {
    hide Plain, Find, Apply, ValueAt;
    if |a| > 0 {
      ExecLike(n, m, a[0], b[0]);
      assert LikeCalls(a[1..], b[1..]);
      AnswersIgnoreFlags(Exec(n, a[0]).0, Exec(m, b[0]).0, a[1..], b[1..]);
    }
  }

  lemma ExecLike(n: Node, m: Node, a: Call, b: Call)
    requires Like(n, m) && LikeCalls([a], [b])
    ensures Like(Exec(n, a).0, Exec(m, b).0) && Exec(n, a).1 == Exec(m, b).1
  {
    hide Plain, Find, Apply, ValueAt;
    assert [a][0] == a && [b][0] == b;
    match a
    case Change(e) => ApplyLike(n, m, e, b.edit, false);
    case Query(k) =>
      FindLike(n, m, Some(k), None, None);
      ValueLike(Find(n, Some(k), None, None), Find(m, Some(k), None, None), k);
  }
}
