/**
 * write(), and histories of sessions, of the code as it is written: the erase
 * loop of a removal that reaches a chain, and chains that are pushed down into
 * nodes that were not read.  When they are the intended ones.
 */
module AsStored {
  import opened Types
  import opened Multimap
  import opened Tree
  import opened Meaning
  import opened Lookup
  import opened Merging
  import opened Splitting
  import opened Flushing
  import opened Trust
  import opened Pushing
  import opened Writing
  import opened Reloading
  import opened Sessions
  import opened AsWritten
  import Leaves
  import Overflow

  // ---------------------------------------------------------------- write() as written

  /** A batch for a child; None where the code leaves a vector, or a chain without a pair. */
  function Batched(n: Node, es: seq<Edit>): (r: Option<Node>)
    ensures r.Some? ==> Height(r.value) == Height(n)
  {
    if |es| == 0 then Some(n)
    else match n
      case Leaf(l) => if MergeRuns(l, es) then Some(Leaf(MergeLeaf(l, es))) else None
      case Internal(_, _) => Mixed(n, es)
  }

  /** The branches from i on after the queue has been dealt out. */
  function BatchedFrom(bs: seq<Branch>, q: seq<Edit>, i: nat): (r: Option<seq<Branch>>)
    requires i <= |bs|
    ensures r.Some? ==> |r.value| == |bs| - i && MaxHeight(r.value) == MaxHeight(bs[i..])
    decreases |bs| - i
  {
    if i == |bs| then Some([])
    else
      var es := Range(bs, q, i);
      var c := Batched(bs[i].child, es);
      var rest := BatchedFrom(bs, q, i + 1);
      if c.None? || rest.None? then None
      else
        assert bs[i..][1..] == bs[i + 1..];
        var r := [bs[i].(child := c.value, loaded := bs[i].loaded || |es| > 0)] + rest.value;
        assert r[1..] == rest.value;
        Some(r)
  }

  /** The leaf's own chain is pushed down first. */
  function PushedOut(cfg: Config, l: Leaves.Valid): (r: Option<Leaves.Valid>) {
    if l.chain.Node? && l.chain.loaded then
      PushedExact(cfg.block, l.chain);
      PushDownKeeps(cfg.block, l.chain);
      var c := PushedDown(cfg.block, l.chain);
      if c.None? then None else Some(Leaves.LeafData(l.pairs, c.value))
    else Some(l)
  }

  function Flushed(cfg: Config, n: Node): (r: Option<seq<Branch>>)
    ensures r.Some? ==> |r.value| > 0
    decreases Height(n), 1, 0
  {
    match n
    case Leaf(l) =>
      var p := PushedOut(cfg, l);
      if p.None? || !NotStranded(cfg, p.value) || !ChainsEnd(cfg, l.pairs) then None
      else Some(SplitLeaf(cfg, p.value))
    case Internal(bs, q) =>
      var large := QueueSize(cfg, q) > cfg.queue;
      var cs := if large then BatchedFrom(bs, q, 0) else Some(bs);
      if cs.None? then None
      else
        assert bs[0..] == bs;
        var f := FlushedFrom(cfg, cs.value, 0);
        if f.None? then None else Some(SplitInternal(cfg, f.value, if large then [] else q))
  }

  function FlushedFrom(cfg: Config, cs: seq<Branch>, i: nat): Option<seq<Branch>>
    requires i <= |cs|
    decreases 1 + MaxHeight(cs), 0, |cs| - i
  {
    if i == |cs| then Some([])
    else
      MaxHeightBounds(cs, i);
      var r := if cs[i].loaded then Flushed(cfg, cs[i].child) else Some([cs[i]]);
      var rest := FlushedFrom(cfg, cs, i + 1);
      if r.None? || rest.None? then None
      else Some((if cs[i].loaded then Update(cs[i], r.value) else [cs[i]]) + rest.value)
  }

  function Written(cfg: Config, n: Node): Option<Node> {
    var r := Flushed(cfg, n);
    if r.None? then None else Grow(cfg, r.value, 4)
  }

  // ---------------------------------------------------------------- when it is the intended one

  /** Every removal in a batch that reaches a chain is fine when it does, at every node the flush visits. */
  ghost predicate FineFlush(cfg: Config, n: Node)
    decreases Height(n), 1
  {
    match n
    case Leaf(_) => true
    case Internal(bs, q) =>
      MaybeHeight(cfg, bs, q);
      var cs := MaybeApply(cfg, bs, q).0;
      && (QueueSize(cfg, q) > cfg.queue ==> FineBatches(bs, q))
      && (forall i :: 0 <= i < |cs| && cs[i].loaded ==> FineBelow(cfg, cs, i))
  }

  ghost predicate FineBelow(cfg: Config, cs: seq<Branch>, i: nat)
    requires i < |cs|
    decreases 1 + MaxHeight(cs), 0
  {
    MaxHeightBounds(cs, i);
    FineFlush(cfg, cs[i].child)
  }

  ghost predicate FineBatches(bs: seq<Branch>, q: seq<Edit>) {
    forall i :: 0 <= i < |bs| && bs[i].child.Internal? ==> FineMix(bs[i].child, Range(bs, q, i))
  }

  lemma FineBatch(bs: seq<Branch>, q: seq<Edit>, i: nat)
    requires FineBatches(bs, q) && AllMergeRuns(bs, q) && i < |bs|
    ensures Batched(bs[i].child, Range(bs, q, i)) == Some(ApplyEdits(bs[i].child, Range(bs, q, i)))
  {
    hide Mixed, MixMany, FineMix, MergeLeaf, MergeRuns, Range;
    if bs[i].child.Internal? {
      MixedAsIntended(bs[i].child, Range(bs, q, i));
    }
  }

  lemma {:induction false} BatchedAsIntended(bs: seq<Branch>, q: seq<Edit>, i: nat)
    requires FineBatches(bs, q) && AllMergeRuns(bs, q) && i <= |bs|
    ensures BatchedFrom(bs, q, i) == Some(ApplyBranches(bs, q)[i..])
    decreases |bs| - i
  {
    hide Batched, FineBatches, AllMergeRuns, ApplyEdits, Range;
    var cs := ApplyBranches(bs, q);
    if i < |bs| {
      FineBatch(bs, q, i);
      BatchedAsIntended(bs, q, i + 1);
      assert cs[i..] == [cs[i]] + cs[i + 1..];
      assert cs[i] == bs[i].(child := ApplyEdits(bs[i].child, Range(bs, q, i)),
                             loaded := bs[i].loaded || |Range(bs, q, i)| > 0);
    } else {
      assert cs[i..] == [];
    }
  }

  lemma PushedAsIntended(cfg: Config, l: Leaves.Valid)
    requires LeafPasses(cfg, l)
    ensures PushedOut(cfg, l) == Some(PushedLeaf(cfg, l))
  {
    hide PushedDown, PushDown, Movable, NotStranded, ChainsEnd;
    PushedExact(cfg.block, l.chain);
  }

  /** The flush as written is the intended one where the code gets through it and every removal is fine. */
  lemma {:induction false} FlushedAsIntended(cfg: Config, n: Node)
    requires Passable(cfg, n) && FineFlush(cfg, n)
    ensures Flushed(cfg, n) == Some(Flush(cfg, n))
    decreases Height(n), 1, 0
  {
    hide FineBatches, AllMergeRuns, SplitLeaf, SplitInternal, PushedOut, QueueSize, BatchedFrom;
    match n
    case Leaf(l) => PushedAsIntended(cfg, l);
    case Internal(bs, q) =>
      var cs := MaybeApply(cfg, bs, q).0;
      MaybeHeight(cfg, bs, q);
      if QueueSize(cfg, q) > cfg.queue {
        BatchedAsIntended(bs, q, 0);
        assert cs[0..] == cs;
      }
      FlushedFromAsIntended(cfg, cs, 0);
  }

  lemma {:induction false} FlushedFromAsIntended(cfg: Config, cs: seq<Branch>, i: nat)
    requires i <= |cs|
    requires forall j :: 0 <= j < |cs| && cs[j].loaded ==> PassableBelow(cfg, cs, j) && FineBelow(cfg, cs, j)
    ensures FlushedFrom(cfg, cs, i) == Some(FlushFrom(cfg, cs, i))
    decreases 1 + MaxHeight(cs), 0, |cs| - i
  {
    hide Flushed, Flush, Update;
    if i < |cs| {
      MaxHeightBounds(cs, i);
      FlushedFromAsIntended(cfg, cs, i + 1);
      if cs[i].loaded {
        FlushedAsIntended(cfg, cs[i].child);
      }
    }
  }

  lemma WrittenAsIntended(cfg: Config, n: Node)
    requires Passable(cfg, n) && FineFlush(cfg, n)
    ensures Written(cfg, n) == Write(cfg, n)
  {
    hide Flush, Flushed, Grow, Passable, FineFlush;
    FlushedAsIntended(cfg, n);
  }

  // ---------------------------------------------------------------- what can be seen before write()

  lemma RemovesPart(a: seq<Edit>, e: Edit, b: seq<Edit>)
    requires RemovesPair(a + b)
    ensures RemovesPair(a + ([e] + b))
  {
    RemovesJoin(a, b);
    RemovesJoin([e], b);
    RemovesJoin(a, [e] + b);
  }

  /** A batch leaves no removal of a pair waiting that was not waiting, or sent. */
  lemma {:induction false} MixRemoves(n: Node, es: seq<Edit>, k: Key, lo: Option<Key>, hi: Option<Key>)
    requires n.Internal? && Ordered(n, lo, hi) && EditsWithin(es, lo, hi)
    requires RemovesPair(Pending(MixMany(n, es), k))
    ensures RemovesPair(Pending(n, k) + EditsOn(es, k))
    decreases |es|
  {
    hide Ordered, Pending, Apply, RemovesPair;
    if |es| == 0 {
      assert Pending(n, k) + [] == Pending(n, k);
    } else {
      var e, m := es[0], Apply(n, es[0], !es[0].guaranteed);
      ApplyOrdered(n, e, !e.guaranteed, lo, hi);
      Inner(n, e);
      MixRemoves(m, es[1..], k, lo, hi);
      TurnRemoves(n, e, EditsOn(es[1..], k), k, lo, hi);
    }
  }

  lemma TurnRemoves(n: Node, e: Edit, rest: seq<Edit>, k: Key, lo: Option<Key>, hi: Option<Key>)
    requires n.Internal? && Ordered(n, lo, hi)
    requires RemovesPair(Pending(Apply(n, e, !e.guaranteed), k) + rest)
    ensures RemovesPair(Pending(n, k) + (If(e, k) + rest))
  {
    hide Ordered, Pending, Apply, RemovesPair, Held, Step;
    if e.guaranteed {
      OrderedSorted(n, lo, hi);
      ShallowPends(n, e, k);
      Regroup(Pending(n, k), If(e, k), rest);
    } else {
      DeepMeans(n, e, k, lo, hi);
      if e.key == k {
        RemovesPart(Pending(n, k), e, rest);
      } else {
        assert [] + rest == rest;
      }
    }
  }

  lemma Inner(n: Node, e: Edit)
    requires n.Internal?
    ensures Apply(n, e, !e.guaranteed).Internal?
  {
  }

  lemma CalmHere(n: Node, i: nat, j: nat, lo: Option<Key>, hi: Option<Key>)
    requires n.Internal? && Ordered(n, lo, hi) && Calm(n, lo, hi) && i < |n.branches|
    requires j < |Range(n.branches, n.queue, i)| && Range(n.branches, n.queue, i)[j].op == REMOVE_KV
    ensures !ChainAt(n.branches[i].child, Range(n.branches, n.queue, i)[j].key)
  {
    hide Ordered, Calm, ChainAt;
    OrderedParts(n, lo, hi);
    RangeWithin(n.branches, n.queue, lo, hi, i);
    CalmEdit(n, i, j, lo, hi);
  }

  lemma CalmBatches(n: Node, lo: Option<Key>, hi: Option<Key>)
    requires n.Internal? && Ordered(n, lo, hi) && Calm(n, lo, hi)
    ensures FineBatches(n.branches, n.queue)
  {
    hide Ordered, Calm, FineMix, ChainAt;
    OrderedParts(n, lo, hi);
    forall i | 0 <= i < |n.branches| && n.branches[i].child.Internal?
      ensures FineMix(n.branches[i].child, Range(n.branches, n.queue, i))
    {
      var es := Range(n.branches, n.queue, i);
      RangeWithin(n.branches, n.queue, lo, hi, i);
      ChildOrdered(n, i, lo, hi);
      forall j | 0 <= j < |es| && es[j].op == REMOVE_KV
        ensures !ChainAt(n.branches[i].child, es[j].key)
      {
        CalmHere(n, i, j, lo, hi);
      }
      CalmMix(n.branches[i].child, es, Lo(n.branches, i, lo), Hi(n.branches, i, hi));
    }
  }

  lemma CalmKey(n: Node, i: nat, k: Key, lo: Option<Key>, hi: Option<Key>)
    requires n.Internal? && Ordered(n, lo, hi) && Calm(n, lo, hi) && i < |n.branches|
    requires Within(Lo(n.branches, i, lo), Hi(n.branches, i, hi), k)
    requires var p, es := Pending(n.branches[i].child, k), EditsOn(Range(n.branches, n.queue, i), k);
             RemovesPair(p + es) || RemovesPair(p)
    ensures !ChainAt(n.branches[i].child, k)
  {
    hide Ordered, Pending, RemovesPair, Range;
    ChildPends(n, i, lo, hi, k);
    RemovesJoin(Pending(n.branches[i].child, k), EditsOn(Range(n.branches, n.queue, i), k));
  }

  /** An internal child stays calm when it is given its batch. */
  lemma CalmMixed(n: Node, i: nat, lo: Option<Key>, hi: Option<Key>)
    requires n.Internal? && Ordered(n, lo, hi) && Calm(n, lo, hi) && i < |n.branches| && n.branches[i].child.Internal?
    ensures Calm(MixMany(n.branches[i].child, Range(n.branches, n.queue, i)),
                 Lo(n.branches, i, lo), Hi(n.branches, i, hi))
  {
    hide Ordered, Calm, Pending, RemovesPair, ChainAt, Range, MixMany, ChainKept;
    var c, es := n.branches[i].child, Range(n.branches, n.queue, i);
    var l, h := Lo(n.branches, i, lo), Hi(n.branches, i, hi);
    OrderedParts(n, lo, hi);
    RangeWithin(n.branches, n.queue, lo, hi, i);
    ChildOrdered(n, i, lo, hi);
    forall k | Within(l, h, k) && RemovesPair(Pending(MixMany(c, es), k))
      ensures !ChainAt(MixMany(c, es), k)
    {
      MixRemoves(c, es, k, l, h);
      CalmKey(n, i, k, lo, hi);
      MixChain(c, es, k, l, h);
      if ChainAt(MixMany(c, es), k) {
        KeptAt(c, MixMany(c, es), k);
      }
    }
    CalmIs(MixMany(c, es), l, h);
  }

  lemma CalmIs(n: Node, lo: Option<Key>, hi: Option<Key>)
    requires forall k :: Within(lo, hi, k) && RemovesPair(Pending(n, k)) ==> !ChainAt(n, k)
    ensures Calm(n, lo, hi)
  {
  }

  /** The children stay calm, once the queue has been looked at. */
  lemma CalmAfter(cfg: Config, n: Node, i: nat, lo: Option<Key>, hi: Option<Key>)
    requires n.Internal? && Ordered(n, lo, hi) && Calm(n, lo, hi) && i < |n.branches|
    ensures Calm(MaybeApply(cfg, n.branches, n.queue).0[i].child, Lo(n.branches, i, lo), Hi(n.branches, i, hi))
  {
    hide Ordered, Calm, QueueSize, Range, MixMany;
    var c, es := n.branches[i].child, Range(n.branches, n.queue, i);
    CalmChild(n, i, lo, hi);
    if QueueSize(cfg, n.queue) > cfg.queue && |es| > 0 {
      match c
      case Leaf(l) => CalmLeaf(MergeLeaf(l, es), Lo(n.branches, i, lo), Hi(n.branches, i, hi));
      case Internal(_, _) => CalmMixed(n, i, lo, hi);
    }
  }

  lemma CalmLeaf(l: Leaves.Valid, lo: Option<Key>, hi: Option<Key>)
    ensures Calm(Leaf(l), lo, hi)
  {
  }

  /** If no removal of a pair waits for a key that has a chain, no removal of the flush reaches one. */
  lemma {:induction false} CalmFlush(cfg: Config, n: Node, lo: Option<Key>, hi: Option<Key>)
    requires Ordered(n, lo, hi) && Calm(n, lo, hi)
    ensures FineFlush(cfg, n)
    decreases Height(n)
  {
    hide Ordered, Calm, FineBatches, QueueSize, ApplyBranch;
    if n.Internal? {
      var cs := MaybeApply(cfg, n.branches, n.queue).0;
      MaybeHeight(cfg, n.branches, n.queue);
      CalmBatches(n, lo, hi);
      forall i | 0 <= i < |cs| && cs[i].loaded
        ensures FineBelow(cfg, cs, i)
      {
        CalmBelow(cfg, n, i, lo, hi);
        CalmFlush(cfg, cs[i].child, Lo(n.branches, i, lo), Hi(n.branches, i, hi));
      }
    }
  }

  lemma CalmBelow(cfg: Config, n: Node, i: nat, lo: Option<Key>, hi: Option<Key>)
    requires n.Internal? && Ordered(n, lo, hi) && Calm(n, lo, hi) && i < |MaybeApply(cfg, n.branches, n.queue).0|
    ensures var cs := MaybeApply(cfg, n.branches, n.queue).0; var l, h := Lo(n.branches, i, lo), Hi(n.branches, i, hi);
            Height(cs[i].child) < Height(n) && Ordered(cs[i].child, l, h) && Calm(cs[i].child, l, h)
  {
    hide Ordered, Calm, ApplyBranch, QueueSize;
    var cs := MaybeApply(cfg, n.branches, n.queue).0;
    MaybeHeight(cfg, n.branches, n.queue);
    MaxHeightBounds(cs, i);
    MaybeOrdered(cfg, n.branches, n.queue, lo, hi);
    SameSeparators(cfg, n, i);
    ChildOrdered(Internal(cs, MaybeApply(cfg, n.branches, n.queue).1), i, lo, hi);
    CalmAfter(cfg, n, i, lo, hi);
  }

  // ---------------------------------------------------------------- sessions as written

  /** Sessions of the code as written: the tree read back at the end, and all answers. */
  function Story(cfg: Config, n: Node, sessions: seq<seq<Call>>): Option<(Node, seq<Option<Value>>)>
    decreases |sessions|
  {
    if |sessions| == 0 then Some((n, []))
    else
      var x := Ran(n, sessions[0]);
      if x.None? then None
      else
        var w := Written(cfg, x.value.0);
        if w.None? then None
        else
          var y := Story(cfg, Reloaded(w.value), sessions[1..]);
          if y.None? then None else Some((y.value.0, x.value.1 + y.value.1))
  }

  /** No removal of a pair waits for, or is asked of, a key that has a chain when a session begins. */
  ghost predicate CalmSessions(cfg: Config, n: Node, sessions: seq<seq<Call>>)
    decreases |sessions|
  {
    |sessions| > 0 ==>
      var w := Write(cfg, Run(n, sessions[0]).0);
      && Calm(n, None, None) && CalmCalls(n, sessions[0])
      && (w.Some? ==> CalmSessions(cfg, Reloaded(w.value), sessions[1..]))
  }

  lemma CalmSession(cfg: Config, n: Node, calls: seq<Call>)
    requires Ordered(n, None, None) && Parsed(n) && Writable(cfg, Run(n, calls).0)
    requires Calm(n, None, None) && CalmCalls(n, calls) && Write(cfg, Run(n, calls).0).Some?
    ensures Ran(n, calls) == Some(Run(n, calls)) && Written(cfg, Run(n, calls).0) == Write(cfg, Run(n, calls).0)
    ensures var r := Reloaded(Write(cfg, Run(n, calls).0).value); Ordered(r, None, None) && Parsed(r)
  {
    hide Ordered, Parsed, Calm, CalmCalls, Run, Ran, Write, Written, Flush, FlushOK, Passable, FineFlush, Reloaded;
    var t := Run(n, calls).0;
    CalmRun(n, calls);
    RanAsIntended(n, calls);
    RunOrdered(n, calls);
    FlushPasses(cfg, t, None, None);
    CalmFlush(cfg, t, None, None);
    WrittenAsIntended(cfg, t);
    WriteMeans(cfg, t);
    ReloadedOrdered(Write(cfg, t).value, None, None);
    ReloadedParsed(Write(cfg, t).value);
  }

  lemma {:induction false} StoryAsIntended(cfg: Config, n: Node, sessions: seq<seq<Call>>)
    requires Ordered(n, None, None) && Parsed(n) && AllWritable(cfg, n, sessions)
    requires CalmSessions(cfg, n, sessions) && History(cfg, n, sessions).Some?
    ensures Story(cfg, n, sessions) == Some((History(cfg, n, sessions).value, Answers(cfg, n, sessions)))
    decreases |sessions|
  {
    hide Ordered, Parsed, Calm, CalmCalls, Run, Ran, Write, Written, Writable, Reloaded;
    if |sessions| > 0 {
      CalmSession(cfg, n, sessions[0]);
      StoryAsIntended(cfg, Reloaded(Write(cfg, Run(n, sessions[0]).0).value), sessions[1..]);
    }
  }

  /**
   * Sessions of the code as written follow the plain multimap: every bag the
   * last tree stands for is reached by one run of the reference that took all
   * edits of all sessions in call order and agrees with every answer given.
   */
  lemma StoryExplained(cfg: Config, n: Node, sessions: seq<seq<Call>>, k: Key, c: Values) returns (b: Values)
    requires Ordered(n, None, None) && Parsed(n) && AllWritable(cfg, n, sessions)
    requires CalmSessions(cfg, n, sessions) && History(cfg, n, sessions).Some?
    ensures Story(cfg, n, sessions).Some? && |Story(cfg, n, sessions).value.1| == |AllCalls(sessions)|
    ensures var (t, answers) := Story(cfg, n, sessions).value;
            Denotes(t, k, c) ==> Denotes(n, k, b) && Explains(k, AllCalls(sessions), answers, b, c)
  {
    hide Ordered, Parsed, AllWritable, CalmSessions, History, Story, Answers, Denotes, Explains;
    StoryAsIntended(cfg, n, sessions);
    var t := History(cfg, n, sessions).value;
    var d := DenotesSome(t, k);
    var x := HistoryExplained(cfg, n, sessions, k, d);
    b := x;
    if Denotes(t, k, c) {
      b := HistoryExplained(cfg, n, sessions, k, c);
    }
  }
}
