/**
 * Looking up a key.  The path to the leaf is walked down, and at each internal
 * node the edits pending for the branch taken are first pushed into the child.
 */
module Lookup {
  import opened Types
  import opened Multimap
  import opened Tree
  import opened Meaning
  import Leaves

  /** A tree as parsing leaves it: no node keeps its first separator. */
  ghost predicate Parsed(n: Node) {
    n.Internal? ==>
      && (|n.branches| > 0 ==> n.branches[0].minKey == None)
      && forall i :: 0 <= i < |n.branches| ==> Parsed(n.branches[i].child)
  }

  // ---------------------------------------------------------------- forks

  /** The key bounds travelDown gives a child: its own separators, or else the parent's. */
  function ForkLo(bs: seq<Branch>, i: nat, lo: Option<Key>): Option<Key>
    requires i < |bs|
  {
    if bs[i].minKey.Some? then bs[i].minKey else lo
  }

  function ForkHi(bs: seq<Branch>, i: nat, hi: Option<Key>): Option<Key>
    requires i < |bs|
  {
    if i + 1 < |bs| then bs[i + 1].minKey else hi
  }

  /** findPendingEdits. */
  function PendFrom(q: seq<Edit>, lo: Option<Key>): (a: nat)
    ensures a <= |q|
  {
    if lo.Some? && |q| > 0 then EditLower(q, lo.value) else 0
  }

  function PendTo(q: seq<Edit>, hi: Option<Key>): (b: nat)
    ensures b <= |q|
  {
    if hi.Some? && |q| > 0 then EditLower(q, hi.value) else |q|
  }

  function Between(q: seq<Edit>, a: nat, b: nat): seq<Edit>
    requires b <= |q|
  {
    if a <= b then q[a..b] else []
  }

  function Except(q: seq<Edit>, a: nat, b: nat): seq<Edit>
    requires b <= |q|
  {
    if a <= b then q[..a] + q[b..] else q
  }

  /** applyPendingEdits: moves the edits pending for child i into it, shallow or deep. */
  function Push(n: Node, i: nat, lo: Option<Key>, hi: Option<Key>, deep: bool): (r: Node)
    requires n.Internal? && i < |n.branches|
    ensures r.Internal? && |r.branches| == |n.branches|
  {
    var bs, q := n.branches, n.queue;
    var a, b := PendFrom(q, ForkLo(bs, i, lo)), PendTo(q, ForkHi(bs, i, hi));
    Internal(SetChild(bs, i, ApplyMany(bs[i].child, Between(q, a, b), deep)), Except(q, a, b))
  }

  /** In a parsed, ordered node the fork bounds cut the queue exactly where the separators do. */
  lemma PendIsRange(n: Node, i: nat, lo: Option<Key>, hi: Option<Key>)
    requires n.Internal? && Ordered(n, lo, hi) && Parsed(n) && i < |n.branches|
    ensures ForkLo(n.branches, i, lo) == Lo(n.branches, i, lo)
    ensures ForkHi(n.branches, i, hi) == Hi(n.branches, i, hi)
    ensures PendFrom(n.queue, ForkLo(n.branches, i, lo)) == Start(n.branches, n.queue, i)
    ensures PendTo(n.queue, ForkHi(n.branches, i, hi)) == End(n.branches, n.queue, i)
    ensures Start(n.branches, n.queue, i) <= End(n.branches, n.queue, i)
  {
    RangeEnds(n.branches, n.queue, lo, hi, i);
  }

  // ---------------------------------------------------------------- one push

  lemma RangeWithin(bs: seq<Branch>, q: seq<Edit>, lo: Option<Key>, hi: Option<Key>, i: nat)
    requires |bs| > 0 && Separators(bs, lo, hi) && SortedEdits(q) && i < |bs| && EditsWithin(q, lo, hi)
    ensures EditsWithin(Range(bs, q, i), Lo(bs, i, lo), Hi(bs, i, hi))
  {
    RangeEnds(bs, q, lo, hi, i);
    var a := Start(bs, q, i);
    forall j | 0 <= j < |Range(bs, q, i)|
      ensures Within(Lo(bs, i, lo), Hi(bs, i, hi), Range(bs, q, i)[j].key)
    {
      assert Range(bs, q, i)[j] == q[a + j];
      RangeIsRouted(bs, q, lo, hi, i, a + j);
      RouteIs(bs, lo, hi, q[a + j].key, i);
    }
  }

  lemma PushOrdered(n: Node, i: nat, lo: Option<Key>, hi: Option<Key>, deep: bool)
    requires n.Internal? && Ordered(n, lo, hi) && Parsed(n) && i < |n.branches|
    ensures Ordered(Push(n, i, lo, hi, deep), lo, hi)
  {
    var bs, q := n.branches, n.queue;
    PendIsRange(n, i, lo, hi);
    RangeWithin(bs, q, lo, hi, i);
    var es := Range(bs, q, i);
    ManyOrdered(bs[i].child, es, deep, Lo(bs, i, lo), Hi(bs, i, hi));
    var c := ApplyMany(bs[i].child, es, deep);
    SetChildOrdered(n, i, c, lo, hi);
    var a, b := Start(bs, q, i), End(bs, q, i);
    ExceptOrdered(Internal(SetChild(bs, i, c), q), a, b, lo, hi);
  }

  lemma ExceptOrdered(n: Node, a: nat, b: nat, lo: Option<Key>, hi: Option<Key>)
    requires n.Internal? && Ordered(n, lo, hi) && a <= b <= |n.queue|
    ensures Ordered(Internal(n.branches, Except(n.queue, a, b)), lo, hi)
  {
    var q, r := n.queue, Except(n.queue, a, b);
    assert forall j :: 0 <= j < |r| ==> r[j] == if j < a then q[j] else q[j + b - a];
  }

  lemma {:induction false} ApplyParsed(n: Node, e: Edit, deep: bool)
    requires Parsed(n)
    ensures Parsed(Apply(n, e, deep))
  {
    if n.Internal? && deep && |n.branches| > 0 {
      ApplyParsed(n.branches[Route(n.branches, e.key)].child, e, deep);
    }
  }

  lemma {:induction false} ManyParsed(n: Node, es: seq<Edit>, deep: bool)
    requires Parsed(n)
    ensures Parsed(ApplyMany(n, es, deep))
    decreases |es|
  {
    if |es| > 0 {
      ApplyParsed(n, es[0], deep);
      ManyParsed(Apply(n, es[0], deep), es[1..], deep);
    }
  }

  lemma PushParsed(n: Node, i: nat, lo: Option<Key>, hi: Option<Key>, deep: bool)
    requires n.Internal? && Parsed(n) && i < |n.branches|
    ensures Parsed(Push(n, i, lo, hi, deep))
  {
    var bs, q := n.branches, n.queue;
    var a, b := PendFrom(q, ForkLo(bs, i, lo)), PendTo(q, ForkHi(bs, i, hi));
    ManyParsed(bs[i].child, Between(q, a, b), deep);
  }

  lemma OrderedSorted(n: Node, lo: Option<Key>, hi: Option<Key>)
    requires Ordered(n, lo, hi)
    ensures SortedTop(n)
  {
  }

  /** A push to another branch touches neither the values nor the edits of a key. */
  lemma PushAway(n: Node, i: nat, lo: Option<Key>, hi: Option<Key>, k: Key)
    requires n.Internal? && Ordered(n, lo, hi) && Parsed(n) && i < |n.branches| && Route(n.branches, k) != i
    ensures var r := Push(n, i, lo, hi, false); Pending(r, k) == Pending(n, k) && Held(r, k) == Held(n, k)
  {
    hide Parsed, Ordered;
    var bs, q, r := n.branches, n.queue, Push(n, i, lo, hi, false);
    OrderedParts(n, lo, hi);
    PendIsRange(n, i, lo, hi);
    RangeOn(bs, q, lo, hi, i, k);
    RouteSame(bs, r.branches, k);
  }

  lemma PushHere(n: Node, lo: Option<Key>, hi: Option<Key>, k: Key)
    requires n.Internal? && Ordered(n, lo, hi) && Parsed(n)
    ensures var i := Route(n.branches, k); var r := Push(n, i, lo, hi, false);
            var c := ApplyMany(n.branches[i].child, Range(n.branches, n.queue, i), false);
            && r.branches[i].child == c && Route(r.branches, k) == i && EditsOn(r.queue, k) == []
            && Pending(r, k) == Pending(c, k) && Held(r, k) == Held(c, k)
            && EditsOn(Range(n.branches, n.queue, i), k) == EditsOn(n.queue, k)
  {
    hide Parsed, Ordered, ApplyMany, Apply;
    var bs, q, i := n.branches, n.queue, Route(n.branches, k);
    OrderedParts(n, lo, hi);
    var r := Push(n, i, lo, hi, false);
    PendIsRange(n, i, lo, hi);
    RangeOn(bs, q, lo, hi, i, k);
    RouteSame(bs, r.branches, k);
    assert Pending(r, k) == Pending(r.branches[i].child, k) + [];
  }

  /** What an ordered internal node says about its branches and its queue. */
  lemma OrderedParts(n: Node, lo: Option<Key>, hi: Option<Key>)
    requires n.Internal? && Ordered(n, lo, hi)
    ensures |n.branches| > 0 && Separators(n.branches, lo, hi)
    ensures SortedEdits(n.queue) && EditsWithin(n.queue, lo, hi)
    ensures forall i :: 0 <= i < |n.branches| ==> SortedTop(n.branches[i].child)
    ensures SortedTop(n)
  {
    forall i | 0 <= i < |n.branches|
      ensures SortedTop(n.branches[i].child)
    {
      assert Ordered(n.branches[i].child, Lo(n.branches, i, lo), Hi(n.branches, i, hi));
    }
  }

  /** Pushing edits down resolves choices but never adds one: whatever the new tree denotes, the old one did. */
  lemma PushStep(n: Node, i: nat, lo: Option<Key>, hi: Option<Key>, k: Key, c: Values)
    requires n.Internal? && Ordered(n, lo, hi) && Parsed(n) && i < |n.branches| && Within(lo, hi, k)
    requires Denotes(Push(n, i, lo, hi, false), k, c)
    ensures Denotes(n, k, c)
  {
    hide Parsed, Ordered, Push, ApplyMany, Steps, Range;
    if Route(n.branches, k) == i {
      var child := n.branches[i].child;
      OrderedParts(n, lo, hi);
      PushHere(n, lo, hi, k);
      var m := ManyStep(child, Range(n.branches, n.queue, i), k, c);
      StepsJoin(Pending(child, k), EditsOn(n.queue, k), Held(n, k), m, c);
    } else {
      PushAway(n, i, lo, hi, k);
    }
  }

  // ---------------------------------------------------------------- find

  /** findRec: down to the leaf of the key, or to the first leaf without one. */
  function Find(n: Node, key: Option<Key>, lo: Option<Key>, hi: Option<Key>): (r: Node)
    decreases Height(n)
  {
    if n.Leaf? || |n.branches| == 0 then n
    else
      var i := if key.Some? then Route(n.branches, key.value) else 0;
      var p := Push(n, i, lo, hi, false);
      PushedHeight(n, i, lo, hi, false);
      ChildHeight(p, i);
      var c := Find(p.branches[i].child, key, ForkLo(n.branches, i, lo), ForkHi(n.branches, i, hi));
      Internal(p.branches[i := p.branches[i].(child := c)], p.queue)
  }

  lemma PushedHeight(n: Node, i: nat, lo: Option<Key>, hi: Option<Key>, deep: bool)
    requires n.Internal? && i < |n.branches|
    ensures Height(Push(n, i, lo, hi, deep)) == Height(n)
  {
    var bs, q := n.branches, n.queue;
    var es := Between(q, PendFrom(q, ForkLo(bs, i, lo)), PendTo(q, ForkHi(bs, i, hi)));
    ManyHeight(bs[i].child, es, deep);
    MaxHeightIs(bs, Push(n, i, lo, hi, deep).branches);
  }

  function PutChild(n: Node, i: nat, c: Node): Node
    requires n.Internal? && i < |n.branches|
  {
    Internal(n.branches[i := n.branches[i].(child := c)], n.queue)
  }

  /** Replacing a child by one that denotes no more, denotes no more. */
  lemma PutChildStep(n: Node, i: nat, c: Node, k: Key, v: Values)
    requires n.Internal? && i < |n.branches|
    requires Denotes(PutChild(n, i, c), k, v)
    requires Route(n.branches, k) == i ==>
               forall m :: Denotes(c, k, m) ==> Denotes(n.branches[i].child, k, m)
    ensures Denotes(n, k, v)
  {
    var r := PutChild(n, i, c);
    RouteSame(n.branches, r.branches, k);
    if Route(n.branches, k) == i {
      var m := StepsSplit(Pending(c, k), EditsOn(n.queue, k), Held(c, k), v);
      assert Denotes(c, k, m);
      StepsJoin(Pending(n.branches[i].child, k), EditsOn(n.queue, k), Held(n, k), m, v);
    }
  }

  lemma PutChildOrdered(n: Node, i: nat, c: Node, lo: Option<Key>, hi: Option<Key>)
    requires n.Internal? && Ordered(n, lo, hi) && i < |n.branches|
    requires Ordered(c, Lo(n.branches, i, lo), Hi(n.branches, i, hi))
    ensures Ordered(PutChild(n, i, c), lo, hi)
  {
    var bs, cs := n.branches, PutChild(n, i, c).branches;
    assert forall j :: 0 <= j < |bs| ==> cs[j].minKey == bs[j].minKey;
    assert Separators(cs, lo, hi);
    forall j | 0 <= j < |cs|
      ensures Ordered(cs[j].child, Lo(cs, j, lo), Hi(cs, j, hi))
    {
      assert Lo(cs, j, lo) == Lo(bs, j, lo) && Hi(cs, j, hi) == Hi(bs, j, hi);
    }
  }

  lemma PushedChild(n: Node, i: nat, lo: Option<Key>, hi: Option<Key>, deep: bool)
    requires n.Internal? && Ordered(n, lo, hi) && Parsed(n) && i < |n.branches|
    ensures var p := Push(n, i, lo, hi, deep); var c := p.branches[i].child;
            && Ordered(p, lo, hi) && Parsed(p) && Height(p) == Height(n)
            && Ordered(c, ForkLo(n.branches, i, lo), ForkHi(n.branches, i, hi)) && Parsed(c)
            && Height(c) < Height(n)
  {
    var bs, p := n.branches, Push(n, i, lo, hi, deep);
    PushOrdered(n, i, lo, hi, deep);
    PushParsed(n, i, lo, hi, deep);
    PushedHeight(n, i, lo, hi, deep);
    ChildHeight(p, i);
    PendIsRange(n, i, lo, hi);
    assert Lo(p.branches, i, lo) == Lo(bs, i, lo) && Hi(p.branches, i, hi) == Hi(bs, i, hi);
  }

  lemma {:induction false} FindOrdered(n: Node, key: Option<Key>, lo: Option<Key>, hi: Option<Key>)
    requires Ordered(n, lo, hi) && Parsed(n)
    ensures Ordered(Find(n, key, lo, hi), lo, hi) && Parsed(Find(n, key, lo, hi))
    decreases Height(n)
  {
    hide Apply, ApplyMany, Height, Separators, SortedEdits, Within;
    if n.Internal? {
      var i := if key.Some? then Route(n.branches, key.value) else 0;
      var p := Push(n, i, lo, hi, false);
      PushedChild(n, i, lo, hi, false);
      var flo, fhi := ForkLo(n.branches, i, lo), ForkHi(n.branches, i, hi);
      var c := Find(p.branches[i].child, key, flo, fhi);
      FindOrdered(p.branches[i].child, key, flo, fhi);
      PendIsRange(n, i, lo, hi);
      assert Lo(p.branches, i, lo) == flo && Hi(p.branches, i, hi) == fhi;
      PutChildOrdered(p, i, c, lo, hi);
      PutChildParsed(p, i, c);
    }
  }

  lemma PutChildParsed(n: Node, i: nat, c: Node)
    requires n.Internal? && Parsed(n) && i < |n.branches| && Parsed(c)
    ensures Parsed(PutChild(n, i, c))
  {
  }

  /** Finding never changes what the tree means: it denotes nothing it did not denote before. */
  lemma {:induction false} FindStep(n: Node, key: Option<Key>, lo: Option<Key>, hi: Option<Key>, k: Key, c: Values)
    requires Ordered(n, lo, hi) && Parsed(n) && Within(lo, hi, k)
    requires Denotes(Find(n, key, lo, hi), k, c)
    ensures Denotes(n, k, c)
    decreases Height(n)
  {
    if n.Internal? {
      var i := if key.Some? then Route(n.branches, key.value) else 0;
      var p := Push(n, i, lo, hi, false);
      PushedChild(n, i, lo, hi, false);
      var flo, fhi := ForkLo(n.branches, i, lo), ForkHi(n.branches, i, hi);
      var d := Find(p.branches[i].child, key, flo, fhi);
      if Route(p.branches, k) == i {
        PushedRoute(n, i, lo, hi, k);
        forall m | Denotes(d, k, m)
          ensures Denotes(p.branches[i].child, k, m)
        {
          FindStep(p.branches[i].child, key, flo, fhi, k, m);
        }
      }
      PutChildStep(p, i, d, k, c);
      PushStep(n, i, lo, hi, k, c);
    }
  }

  lemma PushedRoute(n: Node, i: nat, lo: Option<Key>, hi: Option<Key>, k: Key)
    requires n.Internal? && Ordered(n, lo, hi) && Parsed(n) && i < |n.branches| && Within(lo, hi, k)
    requires Route(Push(n, i, lo, hi, false).branches, k) == i
    ensures Within(ForkLo(n.branches, i, lo), ForkHi(n.branches, i, hi), k)
  {
    PendIsRange(n, i, lo, hi);
    RouteSame(n.branches, Push(n, i, lo, hi, false).branches, k);
    RouteIs(n.branches, lo, hi, k, i);
  }

  /** One push empties the queue of the edits of every key routed to the child. */
  lemma PushEmpties(n: Node, k: Key, lo: Option<Key>, hi: Option<Key>)
    requires n.Internal? && Ordered(n, lo, hi) && Parsed(n) && Within(lo, hi, k)
    ensures var i := Route(n.branches, k); var p := Push(n, i, lo, hi, false);
            && Route(p.branches, k) == i && EditsOn(p.queue, k) == []
            && Within(ForkLo(n.branches, i, lo), ForkHi(n.branches, i, hi), k)
            && Ordered(p.branches[i].child, ForkLo(n.branches, i, lo), ForkHi(n.branches, i, hi))
            && Parsed(p.branches[i].child)
            && Height(p.branches[i].child) < Height(n)
  {
    hide Ordered, Parsed, ApplyMany, Apply;
    OrderedParts(n, lo, hi);
    var bs, i := n.branches, Route(n.branches, k);
    var p := Push(n, i, lo, hi, false);
    PushOrdered(n, i, lo, hi, false);
    PushParsed(n, i, lo, hi, false);
    PushedHeight(n, i, lo, hi, false);
    ChildHeight(p, i);
    PendIsRange(n, i, lo, hi);
    RangeOn(bs, n.queue, lo, hi, i, k);
    RouteIs(bs, lo, hi, k, i);
    RouteSame(bs, p.branches, k);
    assert Lo(p.branches, i, lo) == Lo(bs, i, lo) && Hi(p.branches, i, hi) == Hi(bs, i, hi);
  }

  /** After a find nothing is pending on the path of the key any more. */
  lemma {:induction false} FindSettles(n: Node, k: Key, lo: Option<Key>, hi: Option<Key>)
    requires Ordered(n, lo, hi) && Parsed(n) && Within(lo, hi, k)
    ensures Pending(Find(n, Some(k), lo, hi), k) == []
    decreases Height(n)
  {
    hide Ordered, Parsed, Push, Steps, EditsOn;
    if n.Internal? {
      OrderedParts(n, lo, hi);
      var bs, i := n.branches, Route(n.branches, k);
      var p := Push(n, i, lo, hi, false);
      PushEmpties(n, k, lo, hi);
      var c := p.branches[i].child;
      FindSettles(c, k, ForkLo(bs, i, lo), ForkHi(bs, i, hi));
      var r := Find(n, Some(k), lo, hi);
      RouteSame(p.branches, r.branches, k);
    }
  }

  // ---------------------------------------------------------------- get

  /** What get reads once the path is settled: the first pair of the key in its leaf. */
  function ValueAt(n: Node, k: Key): Option<Value> {
    var l := LeafFor(n, k);
    var i := LowerBound(l.pairs, k);
    if i < |l.pairs| && i < UpperBound(l.pairs, k) then Some(l.pairs[i].value) else None
  }

  function Get(n: Node, k: Key): (Node, Option<Value>) {
    var r := Find(n, Some(k), None, None);
    (r, ValueAt(r, k))
  }

  /** A result fits a bag: some value of it, or nothing because it is empty. */
  predicate Fits(r: Option<Value>, b: Values) {
    if r.Some? then r.value in b else b == multiset{}
  }

  lemma ValueFits(n: Node, k: Key)
    ensures Fits(ValueAt(n, k), Held(n, k))
  {
    var l := LeafFor(n, k);
    var i := LowerBound(l.pairs, k);
    if ValueAt(n, k).Some? {
      BagHolds(l.pairs, k, l.pairs[i].value);
      assert l.pairs[i] in l.pairs;
    } else {
      NoPair(l, k);
    }
  }

  lemma NoPair(l: Leaves.Valid, k: Key)
    requires LowerBound(l.pairs, k) >= UpperBound(l.pairs, k)
    ensures Leaves.LeafBag(l, k) == multiset{}
  {
    var i := LowerBound(l.pairs, k);
    BagEmpty(l.pairs, k);
  }

  /** get answers from a bag the tree stands for. */
  lemma GetFits(n: Node, k: Key, c: Values)
    requires Ordered(n, None, None) && Parsed(n)
    requires Denotes(Get(n, k).0, k, c)
    ensures Fits(Get(n, k).1, c)
  {
    hide Parsed, ValueAt, Held, Find, Ordered;
    FindSettles(n, k, None, None);
    ValueFits(Get(n, k).0, k);
  }

  // ---------------------------------------------------------------- runs

  datatype Call = Change(edit: Edit) | Query(key: Key)

  function Exec(n: Node, call: Call): (Node, Option<Value>) {
    match call
    case Change(e) => (Apply(n, e, false), None)
    case Query(k) => Get(n, k)
  }

  /** The tree after a sequence of calls, and the answers given. */
  function Run(n: Node, calls: seq<Call>): (Node, seq<Option<Value>>)
    decreases |calls|
  {
    if |calls| == 0 then (n, [])
    else
      var (m, r) := Exec(n, calls[0]);
      var (t, rs) := Run(m, calls[1..]);
      (t, [r] + rs)
  }

  /** A run of the reference on one key: it takes the same edits, and every answer about the key fits. */
  ghost predicate Explains(k: Key, calls: seq<Call>, rs: seq<Option<Value>>, b: Values, c: Values)
    requires |rs| == |calls|
    decreases |calls|
  {
    if |calls| == 0 then b == c
    else
      match calls[0]
      case Change(e) => exists m :: Steps(If(e, k), b, m) && Explains(k, calls[1..], rs[1..], m, c)
      case Query(j) => (j == k ==> Fits(rs[0], b)) && Explains(k, calls[1..], rs[1..], b, c)
  }

  lemma {:induction false} RunAnswers(n: Node, calls: seq<Call>)
    ensures |Run(n, calls).1| == |calls|
    decreases |calls|
  {
    if |calls| > 0 {
      RunAnswers(Exec(n, calls[0]).0, calls[1..]);
    }
  }

  lemma ExecOrdered(n: Node, call: Call)
    requires Ordered(n, None, None) && Parsed(n)
    ensures Ordered(Exec(n, call).0, None, None) && Parsed(Exec(n, call).0)
  {
    match call
    case Change(e) =>
      ApplyOrdered(n, e, false, None, None);
      ApplyParsed(n, e, false);
    case Query(k) => FindOrdered(n, Some(k), None, None);
  }

  lemma {:induction false} RunOrdered(n: Node, calls: seq<Call>)
    requires Ordered(n, None, None) && Parsed(n)
    ensures Ordered(Run(n, calls).0, None, None) && Parsed(Run(n, calls).0)
    decreases |calls|
  {
    if |calls| > 0 {
      ExecOrdered(n, calls[0]);
      RunOrdered(Exec(n, calls[0]).0, calls[1..]);
    }
  }

  /**
   * Every bag the tree denotes after a run is reached by a run of the
   * reference that took the same edits and agrees with every answer.
   */
  lemma {:induction false} RunExplained(n: Node, calls: seq<Call>, k: Key, c: Values) returns (b: Values)
    requires Ordered(n, None, None) && Parsed(n)
    requires Denotes(Run(n, calls).0, k, c)
    ensures |Run(n, calls).1| == |calls|
    ensures Denotes(n, k, b) && Explains(k, calls, Run(n, calls).1, b, c)
    decreases |calls|
  {
    RunAnswers(n, calls);
    if |calls| == 0 {
      b := c;
    } else {
      var (m, r) := Exec(n, calls[0]);
      ExecOrdered(n, calls[0]);
      RunAnswers(m, calls[1..]);
      var x := RunExplained(m, calls[1..], k, c);
      assert Run(n, calls).1[1..] == Run(m, calls[1..]).1;
      match calls[0] {
        case Change(e) =>
          OrderedSorted(n, None, None);
          b := ShallowStep(n, e, k, x);
        case Query(j) =>
          FindStep(n, Some(j), None, None, k, x);
          if j == k {
            GetFits(n, k, x);
          }
          b := x;
      }
    }
  }

  /** A tree with nothing pending stands for exactly the values its leaves hold. */
  lemma SettledDenotes(n: Node, k: Key, c: Values)
    requires Pending(n, k) == []
    ensures Denotes(n, k, c) <==> c == Held(n, k)
  {
  }

  /**
   * From a tree with nothing pending: some run of the plain multimap takes the
   * same edits in call order and agrees with every get, whatever flags the edits carry.
   */
  lemma GetAgrees(n: Node, calls: seq<Call>, k: Key)
    requires Ordered(n, None, None) && Parsed(n) && Pending(n, k) == []
    ensures |Run(n, calls).1| == |calls|
    ensures exists c :: Explains(k, calls, Run(n, calls).1, Held(n, k), c)
  {
    var c := DenotesSome(Run(n, calls).0, k);
    var b := RunExplained(n, calls, k, c);
    SettledDenotes(n, k, b);
  }
}
