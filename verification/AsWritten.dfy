/**
 * Runs of the code as it is written: a removal of a pair that reaches an
 * overflow chain goes on after its erase.  When such runs are the intended ones.
 */
module AsWritten {
  import opened Types
  import opened Multimap
  import opened Tree
  import opened Meaning
  import opened Lookup
  import opened Limits
  import opened Flushing
  import opened Trust
  import Ranking
  import Leaves
  import Overflow

  // ---------------------------------------------------------------- a leaf

  /** leafRemove goes on to overflowRemove. */
  predicate Reaches(l: Leaves.Valid, e: Edit) {
    && e.op == REMOVE_KV
    && Leaves.FirstMatch(l.pairs, e.key, Some(e.value), 0) == |l.pairs|
    && l.chain.Node? && Last(l.pairs).key == e.key
  }

  lemma {:induction false} RawRemoveValid(c: Overflow.Chain, v: Value)
    requires Overflow.Valid(c) && RawRemove(c, v).Some?
    ensures Overflow.Valid(RawRemove(c, v).value)
    decreases c
  {
    hide EraseLoop;
    if c.Node? {
      assert c.values[0..] == c.values;
      EraseKeepsSome(c.values, v, 0);
      EraseLeavesSome(c.values, v);
      if |EraseLoop(c.values, v, 0).value| == |c.values| {
        RawRemoveValid(c.next, v);
      }
    }
  }

  /** The loop never takes the last value that is left: it would step past the end. */
  lemma EraseLeavesSome(vs: seq<Value>, v: Value)
    requires |vs| > 0 && EraseLoop(vs, v, 0).Some?
    ensures |EraseLoop(vs, v, 0).value| > 0
  {
    if vs[0] == v {
      EraseKeepsSome(vs[..0] + vs[1..], v, 1);
    } else {
      EraseKeepsSome(vs, v, 1);
    }
  }

  /** One edit on a leaf, as written; None when it leaves the vector. */
  function Edited(l: Leaves.Valid, e: Edit): Option<Leaves.Valid> {
    if Reaches(l, e) then
      var r := RawRemove(l.chain, e.value);
      if r.None? then None
      else
        RawRemoveValid(l.chain, e.value);
        Some(Leaves.LeafData(l.pairs, r.value))
    else Some(Leaves.Edited(l, e))
  }

  /** A removal that reaches the chain meets the condition of its loop. */
  ghost predicate Fine(l: Leaves.Valid, e: Edit) {
    Reaches(l, e) ==> Removable(l.chain, e.value)
  }

  /** Editing a leaf as written is what is intended exactly for the fine edits. */
  lemma EditedExact(l: Leaves.Valid, e: Edit)
    ensures Edited(l, e) == Some(Leaves.Edited(l, e)) <==> Fine(l, e)
  {
    hide Leaves.Keeps, RawRemove, Overflow.Remove, Removable;
    if Reaches(l, e) {
      RemoveExact(l.chain, e.value);
    }
  }

  // ---------------------------------------------------------------- a tree

  function Applied(n: Node, e: Edit, deep: bool): (r: Option<Node>)
    ensures r.Some? ==> Height(r.value) == Height(n)
    decreases n
  {
    match n
    case Leaf(l) =>
      var r := Edited(l, e);
      if r.None? then None else Some(Leaf(r.value))
    case Internal(bs, q) =>
      if !deep then Some(Internal(bs, Enqueue(q, e)))
      else if |bs| == 0 then Some(n)
      else
        var i := Route(bs, e.key);
        var c := Applied(bs[i].child, e, deep);
        if c.None? then None
        else
          SameHeight(bs, i, c.value);
          Some(Internal(SetChild(bs, i, c.value), q))
  }

  lemma SameHeight(bs: seq<Branch>, i: nat, c: Node)
    requires i < |bs| && Height(c) == Height(bs[i].child)
    ensures MaxHeight(SetChild(bs, i, c)) == MaxHeight(bs)
  {
    MaxHeightIs(bs, SetChild(bs, i, c));
  }

  function AppliedMany(n: Node, es: seq<Edit>, deep: bool): (r: Option<Node>)
    ensures r.Some? ==> Height(r.value) == Height(n)
    decreases |es|
  {
    if |es| == 0 then Some(n)
    else
      var m := Applied(n, es[0], deep);
      if m.None? then None else AppliedMany(m.value, es[1..], deep)
  }

  function Waiting(n: Node, i: nat, lo: Option<Key>, hi: Option<Key>): seq<Edit>
    requires n.Internal? && i < |n.branches|
  {
    Between(n.queue, PendFrom(n.queue, ForkLo(n.branches, i, lo)), PendTo(n.queue, ForkHi(n.branches, i, hi)))
  }

  function Pushed(n: Node, i: nat, lo: Option<Key>, hi: Option<Key>): (r: Option<Node>)
    requires n.Internal? && i < |n.branches|
    ensures r.Some? ==> r.value.Internal? && |r.value.branches| == |n.branches| && Height(r.value) == Height(n)
  {
    var bs, q := n.branches, n.queue;
    var c := AppliedMany(bs[i].child, Waiting(n, i, lo, hi), false);
    if c.None? then None
    else
      SameHeight(bs, i, c.value);
      Some(Internal(SetChild(bs, i, c.value), Except(q, PendFrom(q, ForkLo(bs, i, lo)), PendTo(q, ForkHi(bs, i, hi)))))
  }

  function Found(n: Node, key: Option<Key>, lo: Option<Key>, hi: Option<Key>): Option<Node>
    decreases Height(n)
  {
    if n.Leaf? || |n.branches| == 0 then Some(n)
    else
      var i := if key.Some? then Route(n.branches, key.value) else 0;
      var p := Pushed(n, i, lo, hi);
      if p.None? then None
      else
        ChildHeight(p.value, i);
        var c := Found(p.value.branches[i].child, key, ForkLo(n.branches, i, lo), ForkHi(n.branches, i, hi));
        if c.None? then None
        else Some(Internal(p.value.branches[i := p.value.branches[i].(child := c.value)], p.value.queue))
  }

  function Executed(n: Node, call: Call): Option<(Node, Option<Value>)> {
    match call
    case Change(e) =>
      var r := Applied(n, e, false);
      if r.None? then None else Some((r.value, None))
    case Query(k) =>
      var r := Found(n, Some(k), None, None);
      if r.None? then None else Some((r.value, ValueAt(r.value, k)))
  }

  /** A run of the code as written. */
  function Ran(n: Node, calls: seq<Call>): Option<(Node, seq<Option<Value>>)>
    decreases |calls|
  {
    if |calls| == 0 then Some((n, []))
    else
      var x := Executed(n, calls[0]);
      if x.None? then None
      else
        var y := Ran(x.value.0, calls[1..]);
        if y.None? then None else Some((y.value.0, [x.value.1] + y.value.1))
  }

  // ---------------------------------------------------------------- runs that meet the condition

  /** Every removal that reaches a chain, at whatever leaf and in whatever call, is fine when it does. */
  ghost predicate FineAt(n: Node, e: Edit, deep: bool)
    decreases n
  {
    match n
    case Leaf(l) => Fine(l, e)
    case Internal(bs, _) => deep && |bs| > 0 ==> FineAt(bs[Route(bs, e.key)].child, e, deep)
  }

  ghost predicate FineMany(n: Node, es: seq<Edit>)
    decreases |es|
  {
    |es| > 0 ==> FineAt(n, es[0], false) && FineMany(Apply(n, es[0], false), es[1..])
  }

  ghost predicate FineFind(n: Node, key: Option<Key>, lo: Option<Key>, hi: Option<Key>)
    decreases Height(n)
  {
    n.Internal? && |n.branches| > 0 ==>
      var i := if key.Some? then Route(n.branches, key.value) else 0;
      var p := Push(n, i, lo, hi, false);
      PushedHeight(n, i, lo, hi, false);
      ChildHeight(p, i);
      && FineMany(n.branches[i].child, Waiting(n, i, lo, hi))
      && FineFind(p.branches[i].child, key, ForkLo(n.branches, i, lo), ForkHi(n.branches, i, hi))
  }

  ghost predicate FineRun(n: Node, calls: seq<Call>)
    decreases |calls|
  {
    |calls| > 0 ==>
      && (match calls[0]
          case Change(e) => FineAt(n, e, false)
          case Query(k) => FineFind(n, Some(k), None, None))
      && FineRun(Exec(n, calls[0]).0, calls[1..])
  }

  lemma {:induction false} FineApplied(n: Node, e: Edit, deep: bool)
    requires FineAt(n, e, deep)
    ensures Applied(n, e, deep) == Some(Apply(n, e, deep))
    decreases n
  {
    hide Leaves.Keeps;
    match n
    case Leaf(l) => EditedExact(l, e);
    case Internal(bs, q) =>
      if deep && |bs| > 0 {
        FineApplied(bs[Route(bs, e.key)].child, e, deep);
      }
  }

  lemma {:induction false} FineAppliedMany(n: Node, es: seq<Edit>)
    requires FineMany(n, es)
    ensures AppliedMany(n, es, false) == Some(ApplyMany(n, es, false))
    decreases |es|
  {
    hide Applied, Apply, FineAt;
    if |es| > 0 {
      FineApplied(n, es[0], false);
      FineAppliedMany(Apply(n, es[0], false), es[1..]);
    }
  }

  lemma FinePushed(n: Node, i: nat, lo: Option<Key>, hi: Option<Key>)
    requires n.Internal? && i < |n.branches| && FineMany(n.branches[i].child, Waiting(n, i, lo, hi))
    ensures Pushed(n, i, lo, hi) == Some(Push(n, i, lo, hi, false))
  {
    hide AppliedMany, ApplyMany, FineMany;
    FineAppliedMany(n.branches[i].child, Waiting(n, i, lo, hi));
  }

  lemma {:induction false} FineFound(n: Node, key: Option<Key>, lo: Option<Key>, hi: Option<Key>)
    requires FineFind(n, key, lo, hi)
    ensures Found(n, key, lo, hi) == Some(Find(n, key, lo, hi))
    decreases Height(n)
  {
    hide Pushed, Push, FineMany, Waiting, Route;
    if n.Internal? && |n.branches| > 0 {
      var i := if key.Some? then Route(n.branches, key.value) else 0;
      FinePushed(n, i, lo, hi);
      PushedHeight(n, i, lo, hi, false);
      ChildHeight(Push(n, i, lo, hi, false), i);
      FineFound(Push(n, i, lo, hi, false).branches[i].child, key, ForkLo(n.branches, i, lo), ForkHi(n.branches, i, hi));
    }
  }

  /** If every removal of a pair that reaches a chain is fine, the run as written is the intended run. */
  lemma {:induction false} RanAsIntended(n: Node, calls: seq<Call>)
    requires FineRun(n, calls)
    ensures Ran(n, calls) == Some(Run(n, calls))
    decreases |calls|
  {
    hide Applied, Apply, Found, Find, FineAt, FineFind;
    if |calls| > 0 {
      match calls[0] {
        case Change(e) => FineApplied(n, e, false);
        case Query(k) => FineFound(n, Some(k), None, None);
      }
      RanAsIntended(Exec(n, calls[0]).0, calls[1..]);
    }
  }

  // ---------------------------------------------------------------- what can be seen before the calls

  /** A chain belongs to the key. */
  predicate ChainAt(n: Node, k: Key) {
    LeafFor(n, k).chain.Node? && Last(LeafFor(n, k).pairs).key == k
  }

  predicate RemovesPair(es: seq<Edit>) {
    exists i :: 0 <= i < |es| && es[i].op == REMOVE_KV
  }

  /** No removal of a pair waits for a key that has a chain. */
  ghost predicate Calm(n: Node, lo: Option<Key>, hi: Option<Key>) {
    forall k :: Within(lo, hi, k) && RemovesPair(Pending(n, k)) ==> !ChainAt(n, k)
  }

  ghost predicate CalmCalls(n: Node, calls: seq<Call>) {
    forall i :: 0 <= i < |calls| && calls[i].Change? && calls[i].edit.op == REMOVE_KV ==> !ChainAt(n, calls[i].edit.key)
  }

  lemma CalmFine(l: Leaves.Valid, e: Edit)
    requires e.op == REMOVE_KV ==> !(l.chain.Node? && Last(l.pairs).key == e.key)
    ensures Fine(l, e)
  {
  }

  lemma {:induction false} LeafCalm(l: Leaves.Valid, es: seq<Edit>)
    requires forall i :: 0 <= i < |es| && es[i].op == REMOVE_KV ==> !(l.chain.Node? && Last(l.pairs).key == es[i].key)
    ensures FineMany(Leaf(l), es)
    decreases |es|
  {
    if |es| > 0 {
      var r := Leaves.Edited(l, es[0]);
      CalmFine(l, es[0]);
      assert ChainKept(l, r);
      LeafCalm(r, es[1..]);
    }
  }

  lemma {:induction false} QueuedFine(n: Node, es: seq<Edit>)
    requires n.Internal?
    ensures FineMany(n, es)
    decreases |es|
  {
    if |es| > 0 {
      QueuedFine(Apply(n, es[0], false), es[1..]);
    }
  }

  lemma {:induction false} ManyChain(n: Node, es: seq<Edit>, k: Key, lo: Option<Key>, hi: Option<Key>)
    requires Ordered(n, lo, hi) && EditsWithin(es, lo, hi)
    ensures ChainKept(LeafFor(n, k), LeafFor(ApplyMany(n, es, false), k))
    decreases |es|
  {
    hide Ordered;
    if |es| > 0 {
      ApplyChain(n, es[0], false, k, lo, hi);
      ApplyOrdered(n, es[0], false, lo, hi);
      ManyChain(Apply(n, es[0], false), es[1..], k, lo, hi);
    }
  }

  lemma PushChain(n: Node, i: nat, lo: Option<Key>, hi: Option<Key>, k: Key)
    requires n.Internal? && Ordered(n, lo, hi) && Parsed(n) && i < |n.branches|
    ensures ChainKept(LeafFor(n, k), LeafFor(Push(n, i, lo, hi, false), k))
  {
    hide ApplyMany, Ordered, Parsed;
    OrderedParts(n, lo, hi);
    PendIsRange(n, i, lo, hi);
    RangeWithin(n.branches, n.queue, lo, hi, i);
    ChildOrdered(n, i, lo, hi);
    RouteSame(n.branches, Push(n, i, lo, hi, false).branches, k);
    ManyChain(n.branches[i].child, Range(n.branches, n.queue, i), k, Lo(n.branches, i, lo), Hi(n.branches, i, hi));
  }

  lemma ChildOrdered(n: Node, i: nat, lo: Option<Key>, hi: Option<Key>)
    requires n.Internal? && Ordered(n, lo, hi) && i < |n.branches|
    ensures Ordered(n.branches[i].child, Lo(n.branches, i, lo), Hi(n.branches, i, hi))
  {
  }

  lemma RemovesJoin(a: seq<Edit>, b: seq<Edit>)
    ensures RemovesPair(a + b) <==> RemovesPair(a) || RemovesPair(b)
  {
    var c := a + b;
    if i :| 0 <= i < |a| && a[i].op == REMOVE_KV {
      assert c[i].op == REMOVE_KV;
    }
    if i :| 0 <= i < |b| && b[i].op == REMOVE_KV {
      assert c[|a| + i].op == REMOVE_KV;
    }
    if i :| 0 <= i < |c| && c[i].op == REMOVE_KV {
      assert i < |a| ==> a[i] == c[i];
      assert i >= |a| ==> b[i - |a|] == c[i];
    }
  }

  lemma CalmBatch(n: Node, i: nat, lo: Option<Key>, hi: Option<Key>)
    requires n.Internal? && Ordered(n, lo, hi) && Parsed(n) && Calm(n, lo, hi) && i < |n.branches|
    ensures FineMany(n.branches[i].child, Waiting(n, i, lo, hi))
  {
    hide Pending, FineMany, Ordered, Parsed;
    var c, es := n.branches[i].child, Range(n.branches, n.queue, i);
    PendIsRange(n, i, lo, hi);
    OrderedParts(n, lo, hi);
    RangeWithin(n.branches, n.queue, lo, hi, i);
    match c
    case Internal(_, _) => QueuedFine(c, es);
    case Leaf(l) =>
      forall j | 0 <= j < |es| && es[j].op == REMOVE_KV
        ensures !(l.chain.Node? && Last(l.pairs).key == es[j].key)
      {
        CalmEdit(n, i, j, lo, hi);
      }
      LeafCalm(l, es);
  }

  lemma CalmEdit(n: Node, i: nat, j: nat, lo: Option<Key>, hi: Option<Key>)
    requires n.Internal? && Ordered(n, lo, hi) && Calm(n, lo, hi) && i < |n.branches|
    requires var es := Range(n.branches, n.queue, i); j < |es| && es[j].op == REMOVE_KV
    requires EditsWithin(Range(n.branches, n.queue, i), Lo(n.branches, i, lo), Hi(n.branches, i, hi))
    ensures !ChainAt(n.branches[i].child, Range(n.branches, n.queue, i)[j].key)
  {
    hide Pending, Ordered;
    var es := Range(n.branches, n.queue, i);
    var k := es[j].key;
    ChildPends(n, i, lo, hi, k);
    EditsOnSome(es, j);
    RemovesJoin(Pending(n.branches[i].child, k), EditsOn(es, k));
    assert RemovesPair(Pending(n, k));
  }

  lemma CalmPushed(n: Node, i: nat, lo: Option<Key>, hi: Option<Key>)
    requires n.Internal? && Ordered(n, lo, hi) && Parsed(n) && Calm(n, lo, hi) && i < |n.branches|
    ensures Calm(Push(n, i, lo, hi, false), lo, hi)
  {
    hide Pending, Ordered, Parsed, Push;
    var p := Push(n, i, lo, hi, false);
    forall k | Within(lo, hi, k) && RemovesPair(Pending(p, k))
      ensures !ChainAt(p, k)
    {
      Ranking.PushedPends(n, i, lo, hi, k);
      PushChain(n, i, lo, hi, k);
    }
  }

  lemma CalmChild(p: Node, i: nat, lo: Option<Key>, hi: Option<Key>)
    requires p.Internal? && Ordered(p, lo, hi) && Calm(p, lo, hi) && i < |p.branches|
    ensures Calm(p.branches[i].child, Lo(p.branches, i, lo), Hi(p.branches, i, hi))
  {
    hide Pending, Ordered;
    forall k | Within(Lo(p.branches, i, lo), Hi(p.branches, i, hi), k) && RemovesPair(Pending(p.branches[i].child, k))
      ensures !ChainAt(p.branches[i].child, k)
    {
      ChildPends(p, i, lo, hi, k);
      RemovesJoin(Pending(p.branches[i].child, k), EditsOn(Range(p.branches, p.queue, i), k));
    }
  }

  lemma {:induction false} CalmFind(n: Node, key: Option<Key>, lo: Option<Key>, hi: Option<Key>)
    requires Ordered(n, lo, hi) && Parsed(n) && Calm(n, lo, hi)
    ensures FineFind(n, key, lo, hi)
    decreases Height(n)
  {
    hide Ordered, Parsed, Calm, Push, FineMany, Route;
    if n.Internal? && |n.branches| > 0 {
      var i := if key.Some? then Route(n.branches, key.value) else 0;
      var p := Push(n, i, lo, hi, false);
      CalmBatch(n, i, lo, hi);
      CalmPushed(n, i, lo, hi);
      PushOrdered(n, i, lo, hi, false);
      PushedChild(n, i, lo, hi, false);
      SameForks(n, i, lo, hi);
      CalmChild(p, i, lo, hi);
      PushedHeight(n, i, lo, hi, false);
      ChildHeight(p, i);
      CalmFind(p.branches[i].child, key, ForkLo(n.branches, i, lo), ForkHi(n.branches, i, hi));
    }
  }

  lemma SameForks(n: Node, i: nat, lo: Option<Key>, hi: Option<Key>)
    requires n.Internal? && Ordered(n, lo, hi) && Parsed(n) && i < |n.branches|
    ensures var p := Push(n, i, lo, hi, false);
            ForkLo(n.branches, i, lo) == Lo(p.branches, i, lo) && ForkHi(n.branches, i, hi) == Hi(p.branches, i, hi)
  {
    hide ApplyMany;
    PendIsRange(n, i, lo, hi);
  }

  lemma {:induction false} FindChain(n: Node, key: Option<Key>, lo: Option<Key>, hi: Option<Key>, k: Key)
    requires Ordered(n, lo, hi) && Parsed(n)
    ensures ChainKept(LeafFor(n, k), LeafFor(Find(n, key, lo, hi), k))
    decreases Height(n)
  {
    hide Ordered, Parsed, Push;
    if n.Internal? && |n.branches| > 0 {
      var i := if key.Some? then Route(n.branches, key.value) else 0;
      var p := Push(n, i, lo, hi, false);
      var r := Find(n, key, lo, hi);
      PushChain(n, i, lo, hi, k);
      PushedChild(n, i, lo, hi, false);
      RouteSame(p.branches, r.branches, k);
      FindChain(p.branches[i].child, key, ForkLo(n.branches, i, lo), ForkHi(n.branches, i, hi), k);
    }
  }

  lemma PutChildCalm(p: Node, i: nat, c: Node, lo: Option<Key>, hi: Option<Key>)
    requires p.Internal? && Ordered(p, lo, hi) && Calm(p, lo, hi) && i < |p.branches|
    requires Calm(c, Lo(p.branches, i, lo), Hi(p.branches, i, hi))
    requires forall k :: ChainKept(LeafFor(p.branches[i].child, k), LeafFor(c, k))
    ensures Calm(PutChild(p, i, c), lo, hi)
  {
    hide Ordered, ChainKept, EditsOn, ChainAt, Pending, RemovesPair;
    var r := PutChild(p, i, c);
    OrderedParts(p, lo, hi);
    forall k | Within(lo, hi, k) && RemovesPair(Pending(r, k))
      ensures !ChainAt(r, k)
    {
      RouteSame(p.branches, r.branches, k);
      if Route(p.branches, k) == i {
        RouteIs(p.branches, lo, hi, k, i);
        ThroughChild(p, i, k);
        ThroughChild(r, i, k);
        RemovesJoin(Pending(c, k), EditsOn(p.queue, k));
        RemovesJoin(Pending(p.branches[i].child, k), EditsOn(p.queue, k));
        assert ChainKept(LeafFor(p.branches[i].child, k), LeafFor(c, k));
        if ChainAt(c, k) {
          KeptAt(p.branches[i].child, c, k);
        }
      } else {
        PutAway(p, i, c, k);
      }
    }
  }

  lemma PutAway(p: Node, i: nat, c: Node, k: Key)
    requires p.Internal? && i < |p.branches| && Route(p.branches, k) != i
    requires Route(PutChild(p, i, c).branches, k) == Route(p.branches, k)
    ensures Pending(PutChild(p, i, c), k) == Pending(p, k) && (ChainAt(PutChild(p, i, c), k) <==> ChainAt(p, k))
  {
  }

  lemma ThroughChild(r: Node, i: nat, k: Key)
    requires r.Internal? && i < |r.branches| && Route(r.branches, k) == i
    ensures ChainAt(r, k) <==> ChainAt(r.branches[i].child, k)
    ensures Pending(r, k) == Pending(r.branches[i].child, k) + EditsOn(r.queue, k)
  {
  }

  lemma KeptAt(n: Node, r: Node, k: Key)
    requires ChainKept(LeafFor(n, k), LeafFor(r, k)) && ChainAt(r, k)
    ensures ChainAt(n, k)
  {
  }

  lemma {:induction false} FindCalm(n: Node, key: Option<Key>, lo: Option<Key>, hi: Option<Key>)
    requires Ordered(n, lo, hi) && Parsed(n) && Calm(n, lo, hi)
    ensures Calm(Find(n, key, lo, hi), lo, hi)
    decreases Height(n)
  {
    hide Ordered, Parsed, Calm, Push, ChainKept;
    if n.Internal? && |n.branches| > 0 {
      var i := if key.Some? then Route(n.branches, key.value) else 0;
      var p := Push(n, i, lo, hi, false);
      var flo, fhi := ForkLo(n.branches, i, lo), ForkHi(n.branches, i, hi);
      CalmPushed(n, i, lo, hi);
      PushedChild(n, i, lo, hi, false);
      SameForks(n, i, lo, hi);
      CalmChild(p, i, lo, hi);
      FindCalm(p.branches[i].child, key, flo, fhi);
      forall k
        ensures ChainKept(LeafFor(p.branches[i].child, k), LeafFor(Find(p.branches[i].child, key, flo, fhi), k))
      {
        FindChain(p.branches[i].child, key, flo, fhi, k);
      }
      PutChildCalm(p, i, Find(p.branches[i].child, key, flo, fhi), lo, hi);
    }
  }

  lemma ExecChain(n: Node, call: Call, k: Key)
    requires Ordered(n, None, None) && Parsed(n)
    ensures ChainKept(LeafFor(n, k), LeafFor(Exec(n, call).0, k))
  {
    match call
    case Change(e) => ApplyChain(n, e, false, k, None, None);
    case Query(j) => FindChain(n, Some(j), None, None, k);
  }

  lemma ChangeCalm(n: Node, e: Edit)
    requires Ordered(n, None, None) && Calm(n, None, None)
    requires e.op == REMOVE_KV ==> !ChainAt(n, e.key)
    ensures Calm(Apply(n, e, false), None, None) && FineAt(n, e, false)
  {
    hide Pending, Ordered, Apply, ChainAt, ChainKept;
    var r := Apply(n, e, false);
    forall k | Within(None, None, k) && RemovesPair(Pending(r, k))
      ensures !ChainAt(r, k)
    {
      ApplyChain(n, e, false, k, None, None);
      if n.Internal? {
        OrderedSorted(n, None, None);
        ShallowPends(n, e, k);
        RemovesJoin(Pending(n, k), If(e, k));
        if ChainAt(r, k) {
          KeptAt(n, r, k);
        }
      } else {
        assert r.Leaf? by { ApplyLeaf(n, e); }
        LeafPends(r, k);
      }
    }
    CalmAt(n, e, false);
  }

  lemma ApplyLeaf(n: Node, e: Edit)
    requires n.Leaf?
    ensures Apply(n, e, false).Leaf?
  {
  }

  lemma LeafPends(n: Node, k: Key)
    requires n.Leaf?
    ensures Pending(n, k) == [] && !RemovesPair(Pending(n, k))
  {
  }

  /**
   * Nothing that removes a pair waits for, or is asked of, a key that has a
   * chain when the calls begin: no call starts a chain, so no removal reaches one.
   */
  lemma {:induction false} CalmRun(n: Node, calls: seq<Call>)
    requires Ordered(n, None, None) && Parsed(n) && Calm(n, None, None) && CalmCalls(n, calls)
    ensures FineRun(n, calls) && Calm(Run(n, calls).0, None, None)
    decreases |calls|
  {
    hide Ordered, Parsed, Calm, FineAt, FineFind, Find, Apply;
    if |calls| > 0 {
      var m := Exec(n, calls[0]).0;
      ExecOrdered(n, calls[0]);
      match calls[0] {
        case Change(e) => ChangeCalm(n, e);
        case Query(k) =>
          CalmFind(n, Some(k), None, None);
          FindCalm(n, Some(k), None, None);
      }
      forall i | 0 <= i < |calls[1..]| && calls[1..][i].Change? && calls[1..][i].edit.op == REMOVE_KV
        ensures !ChainAt(m, calls[1..][i].edit.key)
      {
        assert calls[1..][i] == calls[i + 1];
        ExecChain(n, calls[0], calls[1..][i].edit.key);
      }
      CalmRun(m, calls[1..]);
    }
  }

  /** A fine run of the code as written stays inside its vectors and follows the plain multimap. */
  lemma RanExplained(n: Node, calls: seq<Call>, k: Key, c: Values) returns (b: Values)
    requires Ordered(n, None, None) && Parsed(n) && FineRun(n, calls)
    ensures Ran(n, calls).Some? && |Ran(n, calls).value.1| == |calls|
    ensures Denotes(Ran(n, calls).value.0, k, c) ==>
              Denotes(n, k, b) && Explains(k, calls, Ran(n, calls).value.1, b, c)
  {
    hide Ordered, Parsed, FineRun, Run, Ran, Denotes, Explains;
    RanAsIntended(n, calls);
    RunAnswers(n, calls);
    b := c;
    if Denotes(Run(n, calls).0, k, c) {
      b := RunExplained(n, calls, k, c);
    }
  }

  // ---------------------------------------------------------------- a batch of the flush

  /** The edits for an internal child, as written: deep ones go to their leaves. */
  function Mixed(n: Node, es: seq<Edit>): (r: Option<Node>)
    ensures r.Some? ==> Height(r.value) == Height(n)
    decreases |es|
  {
    if |es| == 0 then Some(n)
    else
      var m := Applied(n, es[0], !es[0].guaranteed);
      if m.None? then None else Mixed(m.value, es[1..])
  }

  ghost predicate FineMix(n: Node, es: seq<Edit>)
    decreases |es|
  {
    |es| > 0 ==>
      FineAt(n, es[0], !es[0].guaranteed) && FineMix(Apply(n, es[0], !es[0].guaranteed), es[1..])
  }

  lemma {:induction false} MixedAsIntended(n: Node, es: seq<Edit>)
    requires FineMix(n, es)
    ensures Mixed(n, es) == Some(MixMany(n, es))
    decreases |es|
  {
    hide Applied, Apply, FineAt;
    if |es| > 0 {
      FineApplied(n, es[0], !es[0].guaranteed);
      MixedAsIntended(Apply(n, es[0], !es[0].guaranteed), es[1..]);
    }
  }

  /** A batch none of whose removals of a pair is for a key that has a chain. */
  lemma {:induction false} CalmMix(n: Node, es: seq<Edit>, lo: Option<Key>, hi: Option<Key>)
    requires Ordered(n, lo, hi) && EditsWithin(es, lo, hi)
    requires forall i :: 0 <= i < |es| && es[i].op == REMOVE_KV ==> !ChainAt(n, es[i].key)
    ensures FineMix(n, es)
    decreases |es|
  {
    hide Ordered, FineAt, Apply, ChainKept, ChainAt;
    if |es| > 0 {
      var e, m := es[0], Apply(n, es[0], !es[0].guaranteed);
      CalmAt(n, e, !e.guaranteed);
      ApplyOrdered(n, e, !e.guaranteed, lo, hi);
      forall i | 0 <= i < |es[1..]| && es[1..][i].op == REMOVE_KV
        ensures !ChainAt(m, es[1..][i].key)
      {
        var k := es[1..][i].key;
        assert es[1..][i] == es[i + 1] && !ChainAt(n, k);
        ApplyChain(n, e, !e.guaranteed, k, lo, hi);
        if ChainAt(m, k) {
          KeptAt(n, m, k);
        }
      }
      CalmMix(m, es[1..], lo, hi);
    }
  }

  lemma {:induction false} CalmAt(n: Node, e: Edit, deep: bool)
    requires e.op == REMOVE_KV ==> !ChainAt(n, e.key)
    ensures FineAt(n, e, deep)
    decreases n
  {
    match n
    case Leaf(l) => CalmFine(l, e);
    case Internal(bs, _) =>
      if deep && |bs| > 0 {
        CalmAt(bs[Route(bs, e.key)].child, e, deep);
      }
  }
}
