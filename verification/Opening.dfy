/**
 * Trees that are opened, edited and queried: conditions on the tree and on the
 * calls, before the first call, under which a flush gets through every leaf.
 */
module Opening {
  import opened Types
  import opened Multimap
  import opened Tree
  import opened Meaning
  import opened Lookup
  import opened Limits
  import opened Splitting
  import opened Flushing
  import opened Trust
  import opened Passing
  import opened Writing
  import opened Readiness
  import Ranking
  import Leaves
  import Overflow

  // ---------------------------------------------------------------- room in a chain

  /** What inserts bring to the first node of a chain. */
  function InsertBytes(es: seq<Edit>): nat {
    if |es| == 0 then 0 else (if es[0].op == INSERT then |es[0].value| else 0) + InsertBytes(es[1..])
  }

  lemma {:induction false} InsertBytesConcat(a: seq<Edit>, b: seq<Edit>)
    ensures InsertBytes(a + b) == InsertBytes(a) + InsertBytes(b)
  {
    if |a| == 0 {
      assert a + b == b;
    } else {
      assert (a + b)[1..] == a[1..] + b;
      InsertBytesConcat(a[1..], b);
    }
  }

  lemma InsertBytesOne(e: Edit)
    ensures InsertBytes([e]) == (if e.op == INSERT then |e.value| else 0) && InsertBytes([]) == 0
  {
    assert [e][1..] == [];
  }

  /** The first node has room for b more bytes, and would have with any value from the nodes behind it alone. */
  ghost predicate Room(block: nat, c: Overflow.Chain, b: nat) {
    c.Node? ==>
      && OverflowSize(c.values) + b <= block
      && forall w :: w in Overflow.Flat(c.next) ==> HEADER + LINK + |w| + b <= block
  }

  lemma PullRoom(block: nat, c: Overflow.Chain, b: nat)
    requires c.Node? && Overflow.Valid(c) && Room(block, c, b)
    ensures Room(block, Overflow.Pull(c).1, b)
  {
    if c.next.End? {
      assert c.values == c.values[..|c.values| - 1] + [Last(c.values)];
      ValuesSizeConcat(c.values[..|c.values| - 1], [Last(c.values)]);
    } else {
      Overflow.PullTakesLast(c.next);
    }
  }

  lemma RemoveRoom(block: nat, c: Overflow.Chain, v: Value, b: nat)
    requires Overflow.Valid(c) && Room(block, c, b)
    ensures Room(block, Overflow.Remove(c, v), b)
  {
    hide Overflow.Pull;
    if c.Node? {
      var i := Overflow.IndexOf(c.values, v);
      if i == |c.values| {
        Overflow.RemoveDropsOne(c.next, v);
        FewerHeld(Overflow.Flat(c.next), Overflow.Flat(Overflow.Remove(c.next, v)), v);
      } else if |c.values| > 1 {
        WithoutSize(c.values, i);
      } else if c.next.Node? {
        Overflow.PullTakesLast(c.next);
        var (w, rest) := Overflow.Pull(c.next);
        assert [w][1..] == [] && ValuesSize([w]) == |w|;
      }
    }
  }

  lemma FewerHeld(a: seq<Value>, d: seq<Value>, v: Value)
    requires multiset(d) == multiset(a) - multiset{v}
    ensures forall w :: w in d ==> w in a
  {
    forall w | w in d
      ensures w in a
    {
      assert w in multiset(d);
      assert w in multiset(a);
    }
  }

  lemma AppendRoom(block: nat, c: Overflow.Chain, v: Value, b: nat)
    requires c.Node? && Room(block, c, |v| + b)
    ensures Room(block, Overflow.Append(c, v), b)
  {
    ValuesSizeConcat(c.values, [v]);
    assert [v][1..] == [];
  }

  lemma LessRoom(block: nat, c: Overflow.Chain, b: nat, d: nat)
    requires Room(block, c, b) && d <= b
    ensures Room(block, c, d)
  {
  }

  // ---------------------------------------------------------------- a leaf

  /** One pair in front of the chain, and room in the chain. */
  ghost predicate LeafRoom(block: nat, l: Leaves.Valid, b: nat) {
    l.chain.Node? ==> !Several(l.pairs) && Room(block, l.chain, b)
  }

  lemma EditedRoom(block: nat, l: Leaves.Valid, e: Edit, b: nat)
    requires l.chain.Node? && LeafRoom(block, l, (if e.key == Last(l.pairs).key then InsertBytes([e]) else 0) + b)
    ensures LeafRoom(block, Leaves.Edited(l, e), b)
  {
    hide Room, Leaves.Keeps, Overflow.Valid;
    InsertBytesOne(e);
    LessRoom(block, l.chain, (if e.key == Last(l.pairs).key then InsertBytes([e]) else 0) + b, b);
    if e.op == INSERT || e.op == UPSERT {
      InsertedRoom(block, l, e, b);
    } else {
      RemovedRoom(block, l, e, b);
    }
  }

  lemma InsertedRoom(block: nat, l: Leaves.Valid, e: Edit, b: nat)
    requires l.chain.Node? && !Several(l.pairs) && (e.op == INSERT || e.op == UPSERT)
    requires Room(block, l.chain, b)
    requires e.op == INSERT && e.key == Last(l.pairs).key ==> Room(block, l.chain, |e.value| + b)
    ensures LeafRoom(block, Leaves.Edited(l, e), b)
  {
    hide Room, Leaves.Keeps, Overflow.Valid, Leaves.PullAll, LowerBound, UpperBound;
    var ps := l.pairs;
    var i := Leaves.Find(ps, e.key);
    Leaves.FindFinds(ps, e.key);
    if i < |ps| {
      Leaves.FoundBelow(ps, e.key);
      if e.op == UPSERT {
        assert !Several(ps[i := Pair(ps[i].key, e.value)]);
      } else if i == |ps| - 1 {
        AppendRoom(block, l.chain, e.value, b);
      } else {
        SingleInsert(ps, Pair(e.key, e.value));
      }
    }
  }

  lemma SingleInsert(ps: seq<Pair>, p: Pair)
    requires |ps| > 0 && Sorted(ps) && !Several(ps) && p.key < Last(ps).key
    ensures !Several(Leaves.InsertPair(ps, p))
  {
    Leaves.InsertPairSorted(ps, p);
  }

  lemma RemovedRoom(block: nat, l: Leaves.Valid, e: Edit, b: nat)
    requires l.chain.Node? && !Several(l.pairs) && (e.op == REMOVE_KEY || e.op == REMOVE_KV)
    requires Room(block, l.chain, b)
    ensures LeafRoom(block, Leaves.Edited(l, e), b)
  {
    hide Room, Leaves.Keeps, Leaves.FirstMatch, Overflow.Pull, Overflow.Remove;
    var ps := l.pairs;
    var v := if e.op == REMOVE_KEY then None else Some(e.value);
    var i := Leaves.FirstMatch(ps, e.key, v, 0);
    if i < |ps| {
      var rs := ps[..i] + ps[i + 1..];
      if i == |rs| {
        PullRoom(block, l.chain, b);
        Leaves.Refill(l, e.key);
        assert rs == ps[..|ps| - 1];
      } else {
        assert !Several(rs);
      }
    } else {
      RemoveRoom(block, l.chain, e.value, b);
    }
  }

  /** A batch that is run on a leaf uses up what it was counted for. */
  lemma {:induction false} ManyRoom(block: nat, l: Leaves.Valid, es: seq<Edit>, k: Key, b: nat)
    requires l.chain.Node? && Last(l.pairs).key == k && LeafRoom(block, l, InsertBytes(EditsOn(es, k)) + b)
    ensures var r := ApplyMany(Leaf(l), es, false); r.Leaf? && LeafRoom(block, r.leaf, b)
    decreases |es|
  {
    hide LeafRoom;
    if |es| > 0 {
      var r := Leaves.Edited(l, es[0]);
      InsertBytesConcat(If(es[0], k), EditsOn(es[1..], k));
      InsertBytesOne(es[0]);
      EditedRoom(block, l, es[0], InsertBytes(EditsOn(es[1..], k)) + b);
      if r.chain.Node? {
        ManyRoom(block, r, es[1..], k, b);
      } else {
        ManyNone(block, r, es[1..], b);
      }
    } else {
      assert InsertBytes([]) == 0;
    }
  }

  lemma {:induction false} ManyNone(block: nat, l: Leaves.Valid, es: seq<Edit>, b: nat)
    requires l.chain.End?
    ensures var r := ApplyMany(Leaf(l), es, false); r.Leaf? && r.leaf.chain.End? && LeafRoom(block, r.leaf, b)
    decreases |es|
  {
    if |es| > 0 {
      ManyNone(block, Leaves.Edited(l, es[0]), es[1..], b);
    }
  }

  // ---------------------------------------------------------------- a tree

  /** The leaf has a chain under the key. */
  predicate Chains(l: Leaves.Valid, k: Key) {
    l.chain.Node? && Last(l.pairs).key == k
  }

  /** If the key has a chain, there is room in it for what waits for the key, and b bytes more. */
  ghost predicate RoomAt(block: nat, n: Node, k: Key, b: nat) {
    Chains(LeafFor(n, k), k) ==> LeafRoom(block, LeafFor(n, k), InsertBytes(Pending(n, k)) + b)
  }

  lemma ChangeRoom(block: nat, n: Node, e: Edit, k: Key, b: nat)
    requires SortedTop(n) && RoomAt(block, n, k, InsertBytes(If(e, k)) + b)
    ensures RoomAt(block, Apply(n, e, false), k, b)
  {
    hide RoomAt, Apply, InsertBytes;
    match n
    case Leaf(l) => ChangeLeafRoom(block, l, e, k, b);
    case Internal(_, _) => QueueRoom(block, n, e, k, b);
  }

  lemma ChangeLeafRoom(block: nat, l: Leaves.Valid, e: Edit, k: Key, b: nat)
    requires RoomAt(block, Leaf(l), k, InsertBytes(If(e, k)) + b)
    ensures RoomAt(block, Apply(Leaf(l), e, false), k, b)
  {
    hide LeafRoom, RoomAt, InsertBytes, If, Several, Leaves.Apply, Leaves.Inv, Leaves.Keeps, Route, SetChild;
    LeafRoomIs(block, l, k, InsertBytes(If(e, k)) + b);
    LeafRoomIs(block, Leaves.Edited(l, e), k, b);
    EditedKept(l, e);
    if Chains(l, k) {
      BytesFor(e, k);
      EditedRoom(block, l, e, b);
    }
  }

  lemma BytesFor(e: Edit, k: Key)
    ensures InsertBytes(If(e, k)) == if e.key == k then InsertBytes([e]) else 0
  {
    NoBytes();
  }

  lemma EditedKept(l: Leaves.Valid, e: Edit)
    ensures ChainKept(l, Leaves.Edited(l, e))
  {
  }

  lemma LeafRoomIs(block: nat, l: Leaves.Valid, k: Key, b: nat)
    ensures RoomAt(block, Leaf(l), k, b) <==> (Chains(l, k) ==> LeafRoom(block, l, b))
  {
    assert InsertBytes([]) == 0;
  }

  lemma QueueRoom(block: nat, n: Node, e: Edit, k: Key, b: nat)
    requires n.Internal? && SortedTop(n) && RoomAt(block, n, k, InsertBytes(If(e, k)) + b)
    ensures RoomAt(block, Apply(n, e, false), k, b)
  {
    hide LeafRoom, Pending, InsertBytes, LeafFor;
    ShallowPends(n, e, k);
    InsertBytesConcat(Pending(n, k), If(e, k));
    SameLeafFor(n, e, k);
  }

  lemma SameLeafFor(n: Node, e: Edit, k: Key)
    requires n.Internal?
    ensures LeafFor(Apply(n, e, false), k) == LeafFor(n, k)
  {
  }

  lemma PushRoom(block: nat, n: Node, i: nat, lo: Option<Key>, hi: Option<Key>, k: Key, b: nat)
    requires n.Internal? && Ordered(n, lo, hi) && Parsed(n) && i < |n.branches| && Within(lo, hi, k)
    requires RoomAt(block, n, k, b)
    ensures RoomAt(block, Push(n, i, lo, hi, false), k, b)
  {
    hide *;
    Ranking.PushedPends(n, i, lo, hi, k);
    PushedLeafFor(n, i, lo, hi, k);
    if Route(n.branches, k) == i && n.branches[i].child.Leaf? {
      PushLeafRoom(block, n, i, lo, hi, k, b);
    } else {
      SameRoom(block, n, Push(n, i, lo, hi, false), k, b);
    }
  }

  lemma SameRoom(block: nat, n: Node, m: Node, k: Key, b: nat)
    requires Pending(m, k) == Pending(n, k) && LeafFor(m, k) == LeafFor(n, k) && RoomAt(block, n, k, b)
    ensures RoomAt(block, m, k, b)
  {
  }

  lemma PushLeafRoom(block: nat, n: Node, i: nat, lo: Option<Key>, hi: Option<Key>, k: Key, b: nat)
    requires n.Internal? && Ordered(n, lo, hi) && Parsed(n) && i < |n.branches| && Route(n.branches, k) == i
    requires n.branches[i].child.Leaf? && RoomAt(block, n, k, b)
    requires var p := Push(n, i, lo, hi, false);
             && Pending(p, k) == []
             && ApplyMany(n.branches[i].child, Range(n.branches, n.queue, i), false) == Leaf(LeafFor(p, k))
    ensures RoomAt(block, Push(n, i, lo, hi, false), k, b)
  {
    hide Ordered, Parsed, LeafRoom, Pending, Push, LeafFor, ApplyMany, InsertBytes, Range, Route;
    var c, es := n.branches[i].child, Range(n.branches, n.queue, i);
    OrderedParts(n, lo, hi);
    RangeOn(n.branches, n.queue, lo, hi, i, k);
    ThroughLeaf(n, i, k);
    NoBytes();
    BatchRoom(block, c.leaf, es, k, b);
  }

  lemma NoBytes()
    ensures InsertBytes([]) == 0
  {
  }

  lemma BatchRoom(block: nat, l: Leaves.Valid, es: seq<Edit>, k: Key, b: nat)
    requires Chains(l, k) ==> LeafRoom(block, l, InsertBytes(EditsOn(es, k)) + b)
    ensures var r := ApplyMany(Leaf(l), es, false); r.Leaf? && (Chains(r.leaf, k) ==> LeafRoom(block, r.leaf, b))
  {
    hide LeafRoom, ApplyMany, InsertBytes;
    ManyKept(l, es);
    if Chains(l, k) {
      ManyRoom(block, l, es, k, b);
    }
  }

  lemma ThroughLeaf(n: Node, i: nat, k: Key)
    requires n.Internal? && i < |n.branches| && Route(n.branches, k) == i && n.branches[i].child.Leaf?
    ensures Pending(n, k) == EditsOn(n.queue, k) && LeafFor(n, k) == n.branches[i].child.leaf
  {
    assert [] + EditsOn(n.queue, k) == EditsOn(n.queue, k);
  }

  lemma {:induction false} ManyKept(l: Leaves.Valid, es: seq<Edit>)
    ensures var r := ApplyMany(Leaf(l), es, false); r.Leaf? && ChainKept(l, r.leaf)
    decreases |es|
  {
    if |es| > 0 {
      ManyKept(Leaves.Edited(l, es[0]), es[1..]);
    }
  }

  /** Whose leaf a push changes, and how. */
  lemma PushedLeafFor(n: Node, i: nat, lo: Option<Key>, hi: Option<Key>, k: Key)
    requires n.Internal? && Ordered(n, lo, hi) && Parsed(n) && i < |n.branches|
    ensures var p := Push(n, i, lo, hi, false); var c := n.branches[i].child;
            if Route(n.branches, k) == i && c.Leaf?
            then ApplyMany(c, Range(n.branches, n.queue, i), false) == Leaf(LeafFor(p, k))
            else LeafFor(p, k) == LeafFor(n, k)
  {
    hide Ordered, Parsed;
    var c, es := n.branches[i].child, Range(n.branches, n.queue, i);
    PendIsRange(n, i, lo, hi);
    RouteSame(n.branches, Push(n, i, lo, hi, false).branches, k);
    if c.Leaf? {
      ManyKept(c.leaf, es);
    } else {
      QueuedBelow(c, es, k);
    }
  }

  lemma {:induction false} QueuedBelow(n: Node, es: seq<Edit>, k: Key)
    requires n.Internal?
    ensures LeafFor(ApplyMany(n, es, false), k) == LeafFor(n, k)
    decreases |es|
  {
    if |es| > 0 {
      QueuedBelow(Apply(n, es[0], false), es[1..], k);
    }
  }

  lemma {:induction false} FindRoom(block: nat, n: Node, key: Option<Key>, lo: Option<Key>, hi: Option<Key>,
                                    k: Key, b: nat)
    requires Ordered(n, lo, hi) && Parsed(n) && Within(lo, hi, k) && RoomAt(block, n, k, b)
    ensures RoomAt(block, Find(n, key, lo, hi), k, b)
    decreases Height(n)
  {
    hide Ordered, Parsed, RoomAt, Push;
    if n.Internal? && |n.branches| > 0 {
      var i := if key.Some? then Route(n.branches, key.value) else 0;
      var p, flo, fhi := Push(n, i, lo, hi, false), ForkLo(n.branches, i, lo), ForkHi(n.branches, i, hi);
      PushRoom(block, n, i, lo, hi, k, b);
      PushedChild(n, i, lo, hi, false);
      var c := p.branches[i].child;
      var d := Find(c, key, flo, fhi);
      RouteSame(p.branches, PutChild(p, i, d).branches, k);
      if Route(p.branches, k) == i {
        PushedRoute(n, i, lo, hi, k);
        PushedEmpty(n, i, lo, hi, k);
        BelowRoom(block, p, i, k, b);
        FindRoom(block, c, key, flo, fhi, k, b);
        BelowRoom(block, PutChild(p, i, d), i, k, b);
      } else {
        AwayRoom(block, p, i, d, k, b);
      }
    }
  }

  lemma PushedEmpty(n: Node, i: nat, lo: Option<Key>, hi: Option<Key>, k: Key)
    requires n.Internal? && Ordered(n, lo, hi) && Parsed(n) && i < |n.branches|
    requires Route(Push(n, i, lo, hi, false).branches, k) == i
    ensures EditsOn(Push(n, i, lo, hi, false).queue, k) == []
  {
    hide Ordered, Parsed, Push;
    RouteSame(n.branches, Push(n, i, lo, hi, false).branches, k) by { SameKeys(n, i, lo, hi); }
    PushHere(n, lo, hi, k);
  }

  lemma SameKeys(n: Node, i: nat, lo: Option<Key>, hi: Option<Key>)
    requires n.Internal? && i < |n.branches|
    ensures forall j :: 0 <= j < |n.branches| ==> n.branches[j].minKey == Push(n, i, lo, hi, false).branches[j].minKey
  {
    hide ApplyMany;
  }

  lemma BelowRoom(block: nat, p: Node, i: nat, k: Key, b: nat)
    requires p.Internal? && i < |p.branches| && Route(p.branches, k) == i && EditsOn(p.queue, k) == []
    ensures RoomAt(block, p, k, b) <==> RoomAt(block, p.branches[i].child, k, b)
  {
    hide LeafRoom;
    var c := p.branches[i].child;
    assert Pending(p, k) == Pending(c, k) + [] == Pending(c, k);
    assert LeafFor(p, k) == LeafFor(c, k);
  }

  lemma AwayRoom(block: nat, p: Node, i: nat, d: Node, k: Key, b: nat)
    requires p.Internal? && i < |p.branches| && RoomAt(block, p, k, b)
    requires Route(p.branches, k) != i && Route(PutChild(p, i, d).branches, k) == Route(p.branches, k)
    ensures RoomAt(block, PutChild(p, i, d), k, b)
  {
    hide LeafRoom;
    var r := PutChild(p, i, d);
    assert Pending(r, k) == Pending(p, k) && LeafFor(r, k) == LeafFor(p, k);
  }

  // ---------------------------------------------------------------- runs

  /** The edits that calls ask for. */
  function Asked(calls: seq<Call>): seq<Edit> {
    if |calls| == 0 then [] else (if calls[0].Change? then [calls[0].edit] else []) + Asked(calls[1..])
  }

  /** Every chain has room for the inserts that wait for its key, and for those that will be asked for. */
  ghost predicate RoomFor(block: nat, n: Node, calls: seq<Call>) {
    forall k :: RoomAt(block, n, k, InsertBytes(EditsOn(Asked(calls), k)))
  }

  lemma {:induction false} RunRoom(block: nat, n: Node, calls: seq<Call>, k: Key)
    requires Ordered(n, None, None) && Parsed(n) && RoomAt(block, n, k, InsertBytes(EditsOn(Asked(calls), k)))
    ensures RoomAt(block, Run(n, calls).0, k, 0)
    decreases |calls|
  {
    hide Ordered, Parsed, RoomAt, Find, Apply;
    assert InsertBytes([]) == 0;
    if |calls| > 0 {
      var rest := EditsOn(Asked(calls[1..]), k);
      ExecOrdered(n, calls[0]);
      match calls[0] {
        case Change(e) =>
          OrderedSorted(n, None, None);
          EditsOnConcat([e], Asked(calls[1..]), k);
          EditsOnOne(e, k);
          InsertBytesConcat(If(e, k), rest);
          ChangeRoom(block, n, e, k, InsertBytes(rest));
        case Query(j) =>
          assert Asked(calls) == [] + Asked(calls[1..]) == Asked(calls[1..]);
          assert Within(None, None, k);
          FindRoom(block, n, Some(j), None, None, k, InsertBytes(rest));
      }
      RunRoom(block, Exec(n, calls[0]).0, calls[1..], k);
    }
  }

  // -- values stay small

  lemma {:induction false} ManyStocked(cfg: Config, n: Node, es: seq<Edit>)
    requires cfg.block >= 60 && Stocked(cfg, n) && SmallEdits(cfg, es)
    ensures Stocked(cfg, ApplyMany(n, es, false))
    decreases |es|
  {
    hide Stocked;
    if |es| > 0 {
      ApplyStocked(cfg, n, es[0], false);
      ManyStocked(cfg, Apply(n, es[0], false), es[1..]);
    }
  }

  lemma PushStocked(cfg: Config, n: Node, i: nat, lo: Option<Key>, hi: Option<Key>)
    requires cfg.block >= 60 && n.Internal? && i < |n.branches| && Stocked(cfg, n)
    ensures Stocked(cfg, Push(n, i, lo, hi, false))
  {
    hide Stocked, ApplyMany;
    var bs, q := n.branches, n.queue;
    var a, b := PendFrom(q, ForkLo(bs, i, lo)), PendTo(q, ForkHi(bs, i, hi));
    StockedParts(cfg, n);
    PartsSmall(cfg, q, a, b);
    var c := ApplyMany(bs[i].child, Between(q, a, b), false);
    ManyStocked(cfg, bs[i].child, Between(q, a, b));
    StockedIs(cfg, SetChild(bs, i, c), Except(q, a, b));
  }

  lemma StockedParts(cfg: Config, n: Node)
    requires n.Internal? && Stocked(cfg, n)
    ensures SmallEdits(cfg, n.queue) && forall i :: 0 <= i < |n.branches| ==> Stocked(cfg, n.branches[i].child)
  {
  }

  lemma StockedIs(cfg: Config, bs: seq<Branch>, q: seq<Edit>)
    requires SmallEdits(cfg, q) && forall i :: 0 <= i < |bs| ==> Stocked(cfg, bs[i].child)
    ensures Stocked(cfg, Internal(bs, q))
  {
  }

  lemma PartsSmall(cfg: Config, q: seq<Edit>, a: nat, b: nat)
    requires SmallEdits(cfg, q) && b <= |q|
    ensures SmallEdits(cfg, Between(q, a, b)) && SmallEdits(cfg, Except(q, a, b))
  {
  }

  lemma {:induction false} FindStocked(cfg: Config, n: Node, key: Option<Key>, lo: Option<Key>, hi: Option<Key>)
    requires cfg.block >= 60 && Stocked(cfg, n)
    ensures Stocked(cfg, Find(n, key, lo, hi))
    decreases Height(n)
  {
    hide Push;
    if n.Internal? && |n.branches| > 0 {
      var i := if key.Some? then Route(n.branches, key.value) else 0;
      PushStocked(cfg, n, i, lo, hi);
      PushedHeight(n, i, lo, hi, false);
      ChildHeight(Push(n, i, lo, hi, false), i);
      FindStocked(cfg, Push(n, i, lo, hi, false).branches[i].child, key,
                  ForkLo(n.branches, i, lo), ForkHi(n.branches, i, hi));
    }
  }

  lemma {:induction false} RunStocked(cfg: Config, n: Node, calls: seq<Call>)
    requires cfg.block >= 60 && Stocked(cfg, n) && SmallEdits(cfg, Asked(calls))
    ensures Stocked(cfg, Run(n, calls).0)
    decreases |calls|
  {
    hide Stocked;
    if |calls| > 0 {
      match calls[0] {
        case Change(e) =>
          assert Asked(calls)[0] == e && Asked(calls)[1..] == Asked(calls[1..]);
          ApplyStocked(cfg, n, e, false);
        case Query(k) =>
          assert Asked(calls) == [] + Asked(calls[1..]) == Asked(calls[1..]);
          FindStocked(cfg, n, Some(k), None, None);
      }
      RunStocked(cfg, Exec(n, calls[0]).0, calls[1..]);
    }
  }

  // -- so the leaves are ready

  /** The last key of a leaf is routed to that leaf. */
  lemma {:induction false} LastRouted(n: Node, k: Key, lo: Option<Key>, hi: Option<Key>)
    requires Ordered(n, lo, hi) && Within(lo, hi, k) && |LeafFor(n, k).pairs| > 0
    ensures var z := Last(LeafFor(n, k).pairs).key; Within(lo, hi, z) && LeafFor(n, z) == LeafFor(n, k)
    decreases n
  {
    if n.Internal? {
      var bs, i := n.branches, Route(n.branches, k);
      RouteIs(bs, lo, hi, k, i);
      LastRouted(bs[i].child, k, Lo(bs, i, lo), Hi(bs, i, hi));
      var z := Last(LeafFor(n, k).pairs).key;
      WithinBounds(bs, lo, hi, i, z);
      RouteIs(bs, lo, hi, z, i);
    }
  }

  lemma {:induction false} StockedLeafFor(cfg: Config, n: Node, k: Key)
    requires Stocked(cfg, n)
    ensures LeafFor(n, k).chain.Node? ==> Stocked(cfg, Leaf(LeafFor(n, k)))
    decreases n
  {
    if n.Internal? && |n.branches| > 0 {
      StockedLeafFor(cfg, n.branches[Route(n.branches, k)].child, k);
    }
  }

  lemma SingleRun(cfg: Config, ps: seq<Pair>)
    requires |ps| > 0 && Sorted(ps) && !Several(ps) && PairsFit(cfg, ps)
    ensures RunSize(cfg, ps, Last(ps).key) <= cfg.block / 2
  {
    var n, z := |ps| - 1, Last(ps).key;
    assert ps == ps[..n] + [ps[n]] && [ps[n]][1..] == [];
    RunSizeConcat(cfg, ps[..n], [ps[n]], z);
    assert n > 0 ==> ps[n - 1].key < z;
    RunSizeBounds(cfg, ps[..n], z);
  }

  lemma RoomReady(cfg: Config, l: Leaves.Valid)
    requires cfg.block >= 60 && Stocked(cfg, Leaf(l)) && l.chain.Node? && LeafRoom(cfg.block, l, 0)
    ensures LeafReady(cfg, l)
  {
    hide RunSize, Leaves.LeafBag;
    StockedPairs(cfg, l);
    SingleRun(cfg, l.pairs);
  }

  /**
   * If every chain has room for the inserts that wait for its key or will be
   * asked for, one pair stands before it, and no value is large, then a flush
   * gets through every leaf after the calls.
   */
  lemma RunLeavesReady(cfg: Config, n: Node, calls: seq<Call>)
    requires cfg.block >= 60 && Ordered(n, None, None) && Parsed(n) && Stocked(cfg, n)
    requires SmallEdits(cfg, Asked(calls)) && RoomFor(cfg.block, n, calls)
    ensures Stocked(cfg, Run(n, calls).0) && LeavesReady(cfg, Run(n, calls).0, None, None)
  {
    hide Ordered, Parsed, Stocked, RoomAt, LeafReady, LeafRoom, LeafFor;
    var r := Run(n, calls).0;
    RunStocked(cfg, n, calls);
    RunOrdered(n, calls);
    forall k | Within(None, None, k)
      ensures LeafReady(cfg, LeafFor(r, k))
    {
      KeyReady(cfg, n, calls, k);
    }
  }

  lemma KeyReady(cfg: Config, n: Node, calls: seq<Call>, k: Key)
    requires cfg.block >= 60 && Ordered(n, None, None) && Parsed(n) && Stocked(cfg, Run(n, calls).0)
    requires RoomFor(cfg.block, n, calls) && Ordered(Run(n, calls).0, None, None)
    ensures LeafReady(cfg, LeafFor(Run(n, calls).0, k))
  {
    hide Ordered, Parsed, Stocked, LeafReady, Pending, LeafRoom, LeafFor, Run;
    var r := Run(n, calls).0;
    var l := LeafFor(r, k);
    if l.chain.Node? {
      assert Within(None, None, k);
      LastRouted(r, k, None, None);
      var z := Last(l.pairs).key;
      RunRoom(cfg.block, n, calls, z);
      StockedLeafFor(cfg, r, k);
      WithRoom(cfg.block, l, InsertBytes(Pending(r, z)));
      RoomReady(cfg, l);
    } else {
      NoChainReady(cfg, l);
    }
  }

  lemma WithRoom(block: nat, l: Leaves.Valid, b: nat)
    requires LeafRoom(block, l, b)
    ensures LeafRoom(block, l, 0)
  {
  }

  /** A tree of one leaf may then be written after any calls. */
  lemma LeafWritable(cfg: Config, l: Leaves.Valid, calls: seq<Call>)
    requires cfg.block >= 60 && Ordered(Leaf(l), None, None) && Stocked(cfg, Leaf(l))
    requires SmallEdits(cfg, Asked(calls)) && RoomFor(cfg.block, Leaf(l), calls)
    ensures Writable(cfg, Run(Leaf(l), calls).0)
  {
    hide Ordered, Stocked, RoomFor, LeafPasses, Flush, LeavesReady;
    RunLeavesReady(cfg, Leaf(l), calls);
    RunOrdered(Leaf(l), calls);
    RunLeaf(Leaf(l), calls);
    var r := Run(Leaf(l), calls).0;
    ReadyLeafIs(cfg, r.leaf, None, None);
    EmptyLeafHollow(cfg, r.leaf, None, None);
  }

  lemma {:induction false} RunLeaf(n: Node, calls: seq<Call>)
    requires n.Leaf?
    ensures Run(n, calls).0.Leaf?
    decreases |calls|
  {
    if |calls| > 0 {
      RunLeaf(Exec(n, calls[0]).0, calls[1..]);
    }
  }
}
