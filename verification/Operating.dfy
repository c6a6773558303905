/**
 * A whole session on the objects: a tree is opened from its stored root, called
 * any number of times, written, and committed or aborted; then it can be opened again.
 */
module Operating {
  import opened Types
  import opened Tree
  import opened Meaning
  import opened Lookup
  import opened Multimap
  import opened Splitting
  import opened Flags
  import opened Reloading
  import opened Blocks
  import opened Storage
  import opened Collecting
  import opened Trees
  import opened Committing
  import opened Seeking
  import opened Ranking
  import opened Acting
  import W = Writing
  import P = Pages
  import C = Codec
  import Leaves
  import Overflow

  // ---------------------------------------------------------------- opening

  lemma UnloadedLink(c: Overflow.Chain)
    ensures LinkTo(Unloaded(c)) == LinkTo(c)
  {
  }

  lemma {:induction false} UnloadedStored(store: Store, c: Overflow.Chain)
    requires LinksStored(store, c)
    ensures LinksStored(store, Unloaded(c))
  {
    if c.Node? {
      UnloadedLink(c.next);
      UnloadedStored(store, c.next);
    }
  }

  /** A page does not say what was in memory, nor which edits were guaranteed. */
  lemma ReloadedPage(n: Node)
    ensures PageOf(Reloaded(n)) == PageOf(n)
  {
    match n
    case Leaf(l) => UnloadedLink(l.chain);
    case Internal(bs, q) =>
      assert Entries(Reloaded(n).branches) == Entries(bs);
      assert Unflagged(Reloaded(n).queue) == Unflagged(q);
  }

  /** What is stored can be opened as the tree that parsing makes of it. */
  lemma {:induction false} ReloadedBeneath(store: Store, n: Node)
    requires Beneath(store, n)
    ensures Beneath(store, Reloaded(n))
    decreases n
  {
    hide PageOf;
    match n
    case Leaf(l) => UnloadedStored(store, l.chain);
    case Internal(bs, q) =>
      forall i | 0 <= i < |bs|
        ensures store[bs[i].id] == PageOf(Reloaded(bs[i].child)) && Beneath(store, Reloaded(bs[i].child))
      {
        ReloadedPage(bs[i].child);
        ReloadedBeneath(store, bs[i].child);
      }
  }

  lemma ReloadedStored(store: Store, id: Id, n: Node)
    requires Stored(store, id, n)
    ensures Stored(store, id, Reloaded(n))
  {
    hide Beneath, PageOf;
    ReloadedPage(n);
    ReloadedBeneath(store, n);
  }

  lemma {:induction false} UnloadedTwice(c: Overflow.Chain)
    ensures Unloaded(Unloaded(c)) == Unloaded(c)
  {
    if c.Node? {
      UnloadedTwice(c.next);
    }
  }

  /** Opening once more changes nothing. */
  lemma {:induction false} ReloadedTwice(n: Node)
    ensures Reloaded(Reloaded(n)) == Reloaded(n)
    decreases n
  {
    match n
    case Leaf(l) => UnloadedTwice(l.chain);
    case Internal(bs, q) =>
      var r := Reloaded(n);
      forall i | 0 <= i < |bs|
        ensures Reloaded(r).branches[i] == r.branches[i]
      {
        ReloadedTwice(bs[i].child);
      }
      assert Reloaded(r).branches == r.branches && PlainEdits(PlainEdits(q)) == PlainEdits(q);
  }

  lemma {:induction false} LinksOnce(store: Store, c: Overflow.Chain, d: Overflow.Chain)
    requires Overflow.Valid(c) && Overflow.Valid(d) && LinksStored(store, c) && LinksStored(store, d)
    requires LinkTo(c) == LinkTo(d)
    ensures Unloaded(c) == Unloaded(d)
  {
    if c.Node? && d.Node? {
      LinksOnce(store, c.next, d.next);
    }
  }

  lemma EntriesAre(bs: seq<Branch>, cs: seq<Branch>)
    requires Entries(bs) == Entries(cs)
    ensures |bs| == |cs|
    ensures forall i :: 0 <= i < |bs| ==>
              bs[i].id == cs[i].id && bs[i].count == cs[i].count && (i > 0 ==> bs[i].minKey == cs[i].minKey)
  {
    assert |bs| == |Entries(bs)| == |cs|;
    forall i | 0 <= i < |bs|
      ensures bs[i].id == cs[i].id && bs[i].count == cs[i].count && (i > 0 ==> bs[i].minKey == cs[i].minKey)
    {
      assert Entries(bs)[i] == Entries(cs)[i];
    }
  }

  /** The store determines the tree that an id stands for. */
  lemma {:induction false} StoredOnce(store: Store, n: Node, m: Node)
    requires PageOf(n) == PageOf(m) && Beneath(store, n) && Beneath(store, m)
    ensures Reloaded(n) == Reloaded(m)
    decreases n
  {
    match n
    case Leaf(l) => LinksOnce(store, l.chain, m.leaf.chain);
    case Internal(bs, q) =>
      var r, s := Reloaded(n), Reloaded(m);
      EntriesAre(bs, m.branches);
      forall i | 0 <= i < |bs|
        ensures r.branches[i] == s.branches[i]
      {
        StoredOnce(store, bs[i].child, m.branches[i].child);
      }
      assert r.branches == s.branches;
      assert PlainEdits(q) == Unflagged(q) && PlainEdits(m.queue) == Unflagged(m.queue);
  }

  // ---------------------------------------------------------------- the same, in bytes

  /** Every page of the chain, and of the tree, can be encoded. */
  ghost predicate ChainSized(fmt: C.Format, c: Overflow.Chain) {
    c.Node? ==> P.Encodable(fmt, OverflowPage(c.values, LinkTo(c.next))) && ChainSized(fmt, c.next)
  }

  ghost predicate AllSized(fmt: C.Format, n: Node) {
    P.Sized(fmt, n) &&
    match n
    case Leaf(l) => ChainSized(fmt, l.chain)
    case Internal(bs, _) => forall i :: 0 <= i < |bs| ==> AllSized(fmt, bs[i].child)
  }

  function BytesOf(code: P.KeyCode, p: Page): C.Slice {
    C.Bytes(P.Encoded(code, p))
  }

  /** Two stores that hold the same bytes under the ids that both have. */
  ghost predicate SameBytes(code: P.KeyCode, s: Store, t: Store) {
    forall id :: id in s && id in t ==> BytesOf(code, s[id]) == BytesOf(code, t[id])
  }

  lemma {:induction false} ChainBytesOnce(fmt: C.Format, code: P.KeyCode, s: Store, t: Store,
                                          c: Overflow.Chain, d: Overflow.Chain)
    requires P.Coding(fmt, code) && SameBytes(code, s, t) && Overflow.Valid(c) && Overflow.Valid(d)
    requires LinksStored(s, c) && LinksStored(t, d) && ChainSized(fmt, c) && ChainSized(fmt, d)
    requires LinkTo(c) == LinkTo(d)
    ensures Unloaded(c) == Unloaded(d)
    decreases c
  {
    hide P.Encodable, P.Coding, BytesOf;
    if c.Node? && d.Node? {
      SamePage(fmt, code, s[c.id], t[d.id]);
      ChainBytesOnce(fmt, code, s, t, c.next, d.next);
    }
  }

  lemma SamePage(fmt: C.Format, code: P.KeyCode, p: Page, q: Page)
    requires P.Coding(fmt, code) && P.Encodable(fmt, p) && P.Encodable(fmt, q) && BytesOf(code, p) == BytesOf(code, q)
    ensures p == q
  {
    hide P.Encodable, P.Coding, C.Bytes, P.Encoded;
    P.BytesSay(fmt, code, p, q);
  }

  /** The bytes of its root, and the bytes under the ids it names, determine the tree that is read back. */
  lemma {:induction false} BytesOnce(fmt: C.Format, code: P.KeyCode, s: Store, t: Store, n: Node, m: Node,
                                     lo: Option<Key>, hi: Option<Key>, l: Option<Key>, h: Option<Key>)
    requires P.Coding(fmt, code) && SameBytes(code, s, t) && Beneath(s, n) && Beneath(t, m)
    requires Ordered(n, lo, hi) && Ordered(m, l, h) && AllSized(fmt, n) && AllSized(fmt, m)
    requires BytesOf(code, PageOf(n)) == BytesOf(code, PageOf(m))
    ensures Reloaded(n) == Reloaded(m)
    decreases n
  {
    hide P.Encodable, P.Coding, P.Sized, BytesOf, SameBytes;
    P.NodeEncodable(fmt, n, lo, hi);
    P.NodeEncodable(fmt, m, l, h);
    SamePage(fmt, code, PageOf(n), PageOf(m));
    match n
    case Leaf(x) => ChainBytesOnce(fmt, code, s, t, x.chain, m.leaf.chain);
    case Internal(bs, q) =>
      var cs := m.branches;
      EntriesAre(bs, cs);
      forall i | 0 <= i < |bs|
        ensures Reloaded(n).branches[i] == Reloaded(m).branches[i]
      {
        ChildBytes(code, s, t, bs[i], cs[i]);
        BytesOnce(fmt, code, s, t, bs[i].child, cs[i].child, Lo(bs, i, lo), Hi(bs, i, hi), Lo(cs, i, l), Hi(cs, i, h));
      }
      assert Reloaded(n).branches == Reloaded(m).branches;
      assert PlainEdits(q) == Unflagged(q) && PlainEdits(m.queue) == Unflagged(m.queue);
  }

  lemma ChildBytes(code: P.KeyCode, s: Store, t: Store, b: Branch, c: Branch)
    requires SameBytes(code, s, t) && b.id == c.id && b.id in s && c.id in t
    requires s[b.id] == PageOf(b.child) && t[c.id] == PageOf(c.child)
    ensures BytesOf(code, PageOf(b.child)) == BytesOf(code, PageOf(c.child))
  {
  }

  // ---------------------------------------------------------------- calling

  lemma RunTurn(n: Node, calls: seq<Call>, j: nat)
    requires j < |calls|
    ensures var (m, r) := Exec(n, calls[j]);
            Run(n, calls[j..]) == (Run(m, calls[j + 1..]).0, [r] + Run(m, calls[j + 1..]).1)
  {
    assert calls[j..][1..] == calls[j + 1..];
  }

  /** One call: an edit at the root, or a get. */
  method Perform(tree: TreeImpl, call: Call) returns (answer: Option<Value>)
    requires tree.Valid()
    modifies tree`root, tree`loadedIDs
    ensures tree.Valid() && tree.root.Some? && (tree.Current(), answer) == Exec(old(tree.Current()), call)
  {
    hide Backed, Ids, Unread, Lookup.Get, Meaning.Apply;
    match call {
      case Change(e) =>
        tree.ApplyToRoot(e);
        answer := None;
      case Query(k) =>
        answer := tree.Get(k);
        var n := tree.Root();
    }
  }

  /** Any sequence of calls answers as the run of the tree does. */
  method PerformAll(tree: TreeImpl, calls: seq<Call>) returns (answers: seq<Option<Value>>)
    requires tree.Valid()
    modifies tree`root, tree`loadedIDs
    ensures tree.Valid() && (|calls| > 0 ==> tree.root.Some?) && (|calls| == 0 ==> tree.root == old(tree.root))
    ensures (tree.Current(), answers) == Run(old(tree.Current()), calls)
  {
    hide Backed, Ids, Unread, Run, Exec;
    answers := [];
    ghost var n := tree.Current();
    assert calls[0..] == calls;
    for j := 0 to |calls|
      invariant tree.Valid() && (j > 0 ==> tree.root.Some?) &&
                (j == 0 ==> tree.root == old(tree.root) && tree.Current() == n)
      invariant Run(n, calls).0 == Run(tree.Current(), calls[j..]).0
      invariant Run(n, calls).1 == answers + Run(tree.Current(), calls[j..]).1
    {
      ghost var m := tree.Current();
      RunTurn(m, calls, j);
      var answer := Perform(tree, calls[j]);
      Regroup(answers, [answer], Run(tree.Current(), calls[j + 1..]).1);
      answers := answers + [answer];
    }
    NoCalls(tree.Current(), calls[|calls|..], answers);
  }

  lemma NoCalls(n: Node, calls: seq<Call>, answers: seq<Option<Value>>)
    requires calls == []
    ensures Run(n, calls) == (n, []) && answers + Run(n, calls).1 == answers
  {
  }

  // -- seeks and ranks among the calls

  /** The places that are ranked are places of the tree, with the nodes on their paths in memory. */
  ghost predicate RanksOnTree(n: Node, acts: seq<Act>)
    decreases |acts|
  {
    |acts| > 0 ==>
      && (acts[0].RankAt? ==> OnTree(n, acts[0].place))
      && RanksOnTree(ExecAct(n, acts[0]).0, acts[1..])
  }

  lemma ActTurn(n: Node, acts: seq<Act>, j: nat)
    requires j < |acts| && RanksOnTree(n, acts[j..])
    ensures var (m, r) := ExecAct(n, acts[j]);
            && RunActs(n, acts[j..]) == (RunActs(m, acts[j + 1..]).0, [r] + RunActs(m, acts[j + 1..]).1)
            && (acts[j].RankAt? ==> OnTree(n, acts[j].place)) && RanksOnTree(m, acts[j + 1..])
  {
    hide ExecAct, OnTree;
    assert acts[j..][1..] == acts[j + 1..];
  }

  /** One act: an edit, a get, a seek and the item it lands on, or the rank of a place. */
  method PerformAct(tree: TreeImpl, act: Act) returns (reply: Reply)
    requires tree.Valid() && (act.RankAt? ==> OnTree(tree.Current(), act.place))
    modifies tree`root, tree`loadedIDs
    ensures tree.Valid() && tree.root.Some? && (tree.Current(), reply) == ExecAct(old(tree.Current()), act)
  {
    hide Backed, Ids, Unread, Exec, Seek, Rank, Ranked, OnTree, ItemAt;
    match act {
      case Do(call) =>
        var answer := Perform(tree, call);
        reply := Answer(answer);
      case SeekTo(m) =>
        var place := tree.SeekTo(m);
        var t := tree.Root();
        reply := Item(if place.None? then None else ItemAt(t, place.value));
      case RankAt(p) =>
        var n := tree.Root();
        var rank := tree.RankOf(p);
        var t := tree.Root();
        reply := Number(rank);
    }
  }

  /** Any sequence of acts replies as the run does that `Acting.ActsExplained` is about. */
  method PerformActs(tree: TreeImpl, acts: seq<Act>) returns (replies: seq<Reply>)
    requires tree.Valid() && RanksOnTree(tree.Current(), acts)
    modifies tree`root, tree`loadedIDs
    ensures tree.Valid() && (tree.Current(), replies) == RunActs(old(tree.Current()), acts)
  {
    hide Backed, Ids, Unread, RunActs, ExecAct, RanksOnTree, OnTree;
    replies := [];
    ghost var n := tree.Current();
    assert acts[0..] == acts;
    for j := 0 to |acts|
      invariant tree.Valid() && RanksOnTree(tree.Current(), acts[j..])
      invariant RunActs(n, acts).0 == RunActs(tree.Current(), acts[j..]).0
      invariant RunActs(n, acts).1 == replies + RunActs(tree.Current(), acts[j..]).1
    {
      ghost var m := tree.Current();
      ActTurn(m, acts, j);
      var reply := PerformAct(tree, acts[j]);
      Regroup(replies, [reply], RunActs(tree.Current(), acts[j + 1..]).1);
      replies := replies + [reply];
    }
    NoActs(tree.Current(), acts[|acts|..], replies);
  }

  lemma NoActs(n: Node, acts: seq<Act>, replies: seq<Reply>)
    requires acts == []
    ensures RunActs(n, acts) == (n, []) && replies + RunActs(n, acts).1 == replies
  {
  }

  // ---------------------------------------------------------------- sessions

  function Opened(rootID: Option<Id>, origin: Node): Node {
    if rootID.Some? then origin else Leaf(Leaves.LeafData([], Overflow.End))
  }

  /** The tree written in a session, before it is given new ids. */
  function WrittenTree(cfg: Config, n: Node, calls: seq<Call>): Option<Node> {
    W.Write(cfg, Run(n, calls).0)
  }

  /** Whatever the tree that was stored stands for was reached from what was opened. */
  lemma StoredExplained(cfg: Config, o: Node, calls: seq<Call>, root: Node, k: Key, c: Values) returns (b: Values)
    requires Ordered(o, None, None) && Parsed(o) && W.Writable(cfg, Run(o, calls).0)
    requires WrittenTree(cfg, o, calls).Some? && Like(WrittenTree(cfg, o, calls).value, root)
    requires Denotes(Reloaded(root), k, c)
    ensures |Run(o, calls).1| == |calls|
    ensures Denotes(o, k, b) && Explains(k, calls, Run(o, calls).1, b, c)
  {
    hide Run, W.Write, W.Writable, Ordered, Parsed, Denotes, Explains, Reloaded, Like;
    var n := Run(o, calls).0;
    var t := W.Write(cfg, n).value;
    RunOrdered(o, calls);
    W.WriteMeans(cfg, n);
    LikeOrdered(t, root, None, None);
    assert Within(None, None, k);
    ReloadedSame(root, None, None, k, c);
    LikeMeans(t, root, k, c);
    b := RunExplained(o, calls, k, c);
  }

  /** The stored tree follows the plain multimap: some run of it took the edits and agrees with every answer. */
  ghost predicate Follows(o: Node, calls: seq<Call>, answers: seq<Option<Value>>, t: Node) {
    |answers| == |calls| &&
    forall k, c :: Denotes(t, k, c) ==> exists b :: Denotes(o, k, b) && Explains(k, calls, answers, b, c)
  }

  lemma StoredFollows(cfg: Config, o: Node, calls: seq<Call>, root: Node)
    requires Ordered(o, None, None) && Parsed(o) && W.Writable(cfg, Run(o, calls).0)
    requires WrittenTree(cfg, o, calls).Some? && Like(WrittenTree(cfg, o, calls).value, root)
    ensures Follows(o, calls, Run(o, calls).1, Reloaded(root))
  {
    hide Run, W.Write, W.Writable, Ordered, Parsed, Denotes, Explains, Reloaded, Like;
    RunAnswers(o, calls);
    forall k, c | Denotes(Reloaded(root), k, c)
      ensures exists b :: Denotes(o, k, b) && Explains(k, calls, Run(o, calls).1, b, c)
    {
      var b := StoredExplained(cfg, o, calls, root, k, c);
    }
  }

  /**
   * A session.  The answers are those of the run.  After a commit the new root
   * id stands for the written tree, which can be opened again and follows the
   * plain multimap; after an abort, or a session without calls, the store is
   * what it was.
   */
  method Session(engine: Mem, cfg: Config, rootID: Option<Id>, origin: Node, calls: seq<Call>, commit: bool)
    returns (answers: seq<Option<Value>>, tree: TreeImpl, finished: Option<bool>)
    requires engine.Fresh()
    requires rootID.Some? ==> Stored(engine.blocks, rootID.value, origin) && origin == Reloaded(origin)
    requires rootID.Some? ==> Unshared(multiset{rootID.value} + Ids(origin))
    requires |calls| > 0 ==> Flushable(cfg, Run(Opened(rootID, origin), calls).0, None, None)
    requires |calls| > 0 ==> WrittenTree(cfg, Opened(rootID, origin), calls).Some?
    modifies engine
    ensures answers == Run(Opened(rootID, origin), calls).1
    ensures finished.Some? ==> finished.value
    ensures finished.Some? && commit && |calls| > 0 ==>
              && tree.rootID.Some? && tree.root.Some?
              && Like(WrittenTree(cfg, Opened(rootID, origin), calls).value, tree.root.value)
              && Stored(engine.blocks, tree.rootID.value, Reloaded(tree.root.value))
              && Reloaded(Reloaded(tree.root.value)) == Reloaded(tree.root.value)
    ensures finished.Some? && commit && |calls| > 0
            && Ordered(Opened(rootID, origin), None, None) && Parsed(Opened(rootID, origin))
            && W.Writable(cfg, Run(Opened(rootID, origin), calls).0) ==>
              Follows(Opened(rootID, origin), calls, answers, Reloaded(tree.root.value))
    ensures finished.Some? && (!commit || |calls| == 0) ==> engine.blocks == old(engine.blocks)
  {
    hide Backed, Beneath, Ids, Unread, Run, Flushable, Stored, Like, Puts, W.Write, W.Writable, Reloaded;
    hide Follows, Ordered, Parsed;
    tree := new TreeImpl(engine, cfg, rootID, origin);
    answers := PerformAll(tree, calls);
    if tree.root.None? {
      var m := tree.Write();
      var ok := FinishMutation(engine, m.value, commit);
      NothingDeleted(old(engine.blocks));
      finished := Some(ok);
    } else {
      NoneShared(tree);
      finished := WriteAndFinish(tree, commit);
      if finished.Some? && commit {
        ReloadedStored(engine.blocks, tree.rootID.value, tree.root.value);
        ReloadedTwice(tree.root.value);
        var o := Opened(rootID, origin);
        if Ordered(o, None, None) && Parsed(o) && W.Writable(cfg, Run(o, calls).0) {
          StoredFollows(cfg, o, calls, tree.root.value);
        }
      }
    }
  }

  lemma NothingDeleted(store: Store)
    ensures Deleted(store, []) == store && Missed(store, []) == []
  {
  }

  lemma NoneShared(tree: TreeImpl)
    requires tree.originID.Some? ==> Unshared(multiset{tree.originID.value} + Ids(tree.origin))
    ensures Unshared(tree.OriginIds())
  {
  }
}
