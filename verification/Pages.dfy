/**
 * The pages of a tree as bytes: a page put is as long as was planned for, is
 * accepted by the engine, and says the same as the node when it is read back.
 */
module Pages {
  import opened Types
  import opened Tree
  import opened Splitting
  import opened Flushing
  import opened Paging
  import opened Trust
  import opened Collecting
  import opened Storage
  import B = Blocks
  import C = Codec
  import W = Writing
  import Leaves
  import Overflow

  type KeyCode = Key -> C.Slice

  // ---------------------------------------------------------------- encoding

  /** An id of the memory engine as the 20 bytes of a block id. */
  function Named(id: Id): C.Slice { C.Little(id, C.ID_SIZE) }

  function RefOf(link: B.Link): C.Ref { C.Ref(link.count, Named(link.id)) }

  /** The absent first separator takes no bytes. */
  function Separator(code: KeyCode, k: Option<Key>): C.Slice {
    match k
    case None => []
    case Some(v) => code(v)
  }

  function EncodedPairs(code: KeyCode, ps: seq<Pair>): (r: seq<(C.Slice, C.Slice)>)
    ensures |r| == |ps|
  {
    seq(|ps|, i requires 0 <= i < |ps| => (code(ps[i].key), ps[i].value))
  }

  /** Counts are stored in four bytes, unsigned. */
  function EncodedEntries(code: KeyCode, es: seq<B.Entry>): (r: seq<C.Entry>)
    ensures |r| == |es|
  {
    seq(|es|, i requires 0 <= i < |es| =>
      C.Entry(Separator(code, es[i].minKey), C.Ref(es[i].count % 0x1_0000_0000, Named(es[i].id))))
  }

  function EncodedQueue(code: KeyCode, q: seq<Edit>): (r: seq<C.Queued>)
    ensures |r| == |q|
  {
    seq(|q|, i requires 0 <= i < |q| => C.Queued(q[i].op, code(q[i].key), q[i].value, q[i].guaranteed))
  }

  function Encoded(code: KeyCode, p: B.Page): C.PageNode {
    match p
    case LeafPage(ps, o) => C.Leaf(EncodedPairs(code, ps), RefOf(o))
    case OverflowPage(vs, o) => C.Overflow(vs, RefOf(o))
    case InternalPage(es, q) => C.Internal(EncodedEntries(code, es), EncodedQueue(code, q))
  }

  // ---------------------------------------------------------------- sizes

  ghost predicate KeySizes(cfg: Config, code: KeyCode) {
    forall k :: |code(k)| == cfg.keySize(k)
  }

  lemma {:induction false} PairsLength(cfg: Config, code: KeyCode, ps: seq<Pair>)
    requires KeySizes(cfg, code)
    ensures var e := EncodedPairs(code, ps); C.Lengths(C.Keys(e)) + C.Lengths(C.Values(e)) == PairsSize(cfg, ps)
  {
    if |ps| > 0 {
      var e, f := EncodedPairs(code, ps), EncodedPairs(code, ps[1..]);
      assert C.Keys(e)[1..] == C.Keys(f) && C.Values(e)[1..] == C.Values(f);
      PairsLength(cfg, code, ps[1..]);
    }
  }

  lemma {:induction false} ValuesLength(vs: seq<Value>)
    ensures C.Lengths(vs) == ValuesSize(vs)
  {
    if |vs| > 0 {
      ValuesLength(vs[1..]);
    }
  }

  lemma {:induction false} QueueLength(cfg: Config, code: KeyCode, q: seq<Edit>)
    requires KeySizes(cfg, code)
    ensures C.QueueSize(EncodedQueue(code, B.Unflagged(q))) == QueueSize(cfg, q)
  {
    if |q| > 0 {
      assert EncodedQueue(code, B.Unflagged(q))[1..] == EncodedQueue(code, B.Unflagged(q[1..]));
      QueueLength(cfg, code, q[1..]);
    }
  }

  function SepLengths(code: KeyCode, bs: seq<Branch>, i: nat): seq<C.Slice>
    requires i <= |bs|
  {
    seq(|bs| - i, j requires 0 <= j < |bs| - i => Separator(code, bs[i + j].minKey))
  }

  lemma {:induction false} BranchesLength(cfg: Config, code: KeyCode, bs: seq<Branch>, i: nat)
    requires KeySizes(cfg, code) && 0 < i <= |bs|
    ensures C.Lengths(SepLengths(code, bs, i)) + 24 * (|bs| - i) == BranchesSize(cfg, bs, i)
    decreases |bs| - i
  {
    if i < |bs| {
      var xs := SepLengths(code, bs, i);
      assert xs[1..] == SepLengths(code, bs, i + 1) && xs[0] == Separator(code, bs[i].minKey);
      assert |xs[0]| == SepSize(cfg, bs[i]);
      BranchesLength(cfg, code, bs, i + 1);
    }
  }

  lemma EntriesLength(cfg: Config, code: KeyCode, bs: seq<Branch>)
    requires KeySizes(cfg, code)
    ensures C.Lengths(C.Separators(EncodedEntries(code, B.Entries(bs)))) + 24 * |bs| == BranchesSize(cfg, bs, 0)
  {
    if |bs| > 0 {
      BranchesLength(cfg, code, bs, 1);
      assert C.Separators(EncodedEntries(code, B.Entries(bs))) == SepLengths(code, bs, 1);
    }
  }

  /** The bytes a node is planned to take. */
  function Planned(cfg: Config, n: Node): nat {
    match n
    case Leaf(l) => LeafSize(cfg, l.pairs)
    case Internal(bs, q) => InternalPage(cfg, bs, q)
  }

  /** The sizes that splits go by are the sizes of the pages. */
  lemma PlannedIsSize(cfg: Config, code: KeyCode, n: Node)
    requires KeySizes(cfg, code)
    ensures C.Size(Encoded(code, B.PageOf(n))) == Planned(cfg, n)
  {
    match n
    case Leaf(l) => PairsLength(cfg, code, l.pairs);
    case Internal(bs, q) =>
      EntriesLength(cfg, code, bs);
      QueueLength(cfg, code, q);
  }

  lemma {:induction false} SameBranchesSize(cfg: Config, bs: seq<Branch>, cs: seq<Branch>, i: nat)
    requires |bs| == |cs| && i <= |bs| && forall j :: 0 <= j < |bs| ==> bs[j].minKey == cs[j].minKey
    ensures BranchesSize(cfg, bs, i) == BranchesSize(cfg, cs, i)
    decreases |bs| - i
  {
    if i < |bs| {
      SameBranchesSize(cfg, bs, cs, i + 1);
    }
  }

  lemma {:induction false} CollectedSeps(bs: seq<Branch>, c: nat)
    ensures var cs := CollectedList(bs, c).0; forall j :: 0 <= j < |bs| ==> bs[j].minKey == cs[j].minKey
  {
    if |bs| > 0 {
      CollectedSeps(bs[1..], CollectedBranch(bs[0], c).1);
    }
  }

  lemma CollectedPlanned(cfg: Config, n: Node, c: nat)
    ensures Planned(cfg, Collected(n, c).0) == Planned(cfg, n)
  {
    if n.Internal? {
      CollectedSeps(n.branches, c);
      SameBranchesSize(cfg, n.branches, CollectedList(n.branches, c).0, 0);
    }
  }

  // ---------------------------------------------------------------- what the engine accepts

  ghost predicate AllFit(code: KeyCode, block: nat, list: seq<PutBlock>) {
    forall j :: 0 <= j < |list| ==> C.Size(Encoded(code, list[j].page)) <= block
  }

  lemma {:induction false} ChainPutsFit(code: KeyCode, block: nat, chain: Overflow.Chain, c: nat)
    requires ChainFits(block, chain)
    ensures AllFit(code, block, ChainPuts(chain, c))
  {
    if chain.Node? && chain.loaded {
      ChainPutsFit(code, block, chain.next, c);
      ValuesLength(chain.values);
    }
  }

  lemma NodePutFits(cfg: Config, code: KeyCode, n: Node, c: nat)
    requires KeySizes(cfg, code) && PagesFit(cfg, n)
    ensures C.Size(Encoded(code, B.PageOf(Collected(n, c).0))) <= cfg.block
  {
    hide Collected;
    CollectedPlanned(cfg, n, c);
    PlannedIsSize(cfg, code, Collected(n, c).0);
  }

  /** If every node in memory fits its page, so does every block that is put. */
  lemma {:induction false} PutsFit(cfg: Config, code: KeyCode, n: Node, c: nat)
    requires KeySizes(cfg, code) && PagesFit(cfg, n)
    ensures AllFit(code, cfg.block, Puts(n, c))
    decreases n, 0
  {
    hide C.Size, Encoded, KeySizes, B.PageOf, ChainFits;
    NodePutFits(cfg, code, n, c);
    match n
    case Leaf(l) => ChainPutsFit(code, cfg.block, l.chain, c);
    case Internal(bs, _) => ListPutsFit(cfg, code, bs, c);
  }

  lemma {:induction false} ListPutsFit(cfg: Config, code: KeyCode, bs: seq<Branch>, c: nat)
    requires KeySizes(cfg, code) && ListFits(cfg, bs)
    ensures AllFit(code, cfg.block, ListPuts(bs, c))
    decreases bs, 1
  {
    hide C.Size, Encoded, KeySizes, PagesFit, Collected, Puts;
    if |bs| > 0 {
      assert bs[0] in bs && bs[0].child < bs[0];
      if bs[0].loaded {
        PutsFit(cfg, code, bs[0].child, c);
      }
      ListPutsFit(cfg, code, bs[1..], CollectedBranch(bs[0], c).1);
    }
  }

  /**
   * The engine never refuses a block of write(): with pairs of at most half a
   * block and room for a branch beside the queue area, none is too large.
   */
  lemma NothingRefused(cfg: Config, code: KeyCode, engine: Mem, n: Node, c: nat)
    requires KeySizes(cfg, code) && Roomy(cfg) && Stocked(cfg, n) && Passable(cfg, n) && W.Write(cfg, n).Some?
    requires engine.maxBlockSize == cfg.block && forall p :: engine.pageSize(p) == C.Size(Encoded(code, p))
    ensures engine.Fits(Puts(W.Write(cfg, n).value, c))
  {
    hide C.Size, Encoded, KeySizes, PagesFit, Puts, Stocked, Passable, W.Write;
    WriteFits(cfg, n);
    PutsFit(cfg, code, W.Write(cfg, n).value, c);
  }

  // ---------------------------------------------------------------- what bytes say

  /** Keys are told apart by their bytes, and say where they end. */
  ghost predicate Coding(fmt: C.Format, code: KeyCode) {
    && (forall k :: C.Delimits(fmt.keySize, code(k)))
    && (forall j, k :: code(j) == code(k) ==> j == k)
  }

  /** The widths of the numbers on a page, and of the ids of the memory engine. */
  const WORD: nat := 0x1_0000_0000
  const WIDE: nat := 0x1_0000_0000_0000_0000

  predicate LinkOk(link: B.Link) { link.count < WORD && link.id < WIDE }

  ghost predicate EditOk(fmt: C.Format, e: Edit) {
    !e.guaranteed && if e.op == REMOVE_KEY then e.value == [] else C.Delimits(fmt.valueSize, e.value)
  }

  /** Pages as they are put: the first separator is absent and no flag is set. */
  ghost predicate Encodable(fmt: C.Format, p: B.Page) {
    match p
    case LeafPage(ps, o) =>
      |ps| < WORD && LinkOk(o) && forall i :: 0 <= i < |ps| ==> C.Delimits(fmt.valueSize, ps[i].value)
    case OverflowPage(vs, o) => |vs| < WORD && LinkOk(o) && C.AllDelimit(fmt.valueSize, vs)
    case InternalPage(es, q) =>
      && 0 < |es| < WORD && |q| < WORD
      && (forall i :: 0 <= i < |es| ==> (es[i].minKey.None? <==> i == 0) && 0 <= es[i].count < WORD && es[i].id < WIDE)
      && (forall i :: 0 <= i < |q| ==> EditOk(fmt, q[i]))
  }

  lemma EncodedStorable(fmt: C.Format, code: KeyCode, p: B.Page)
    requires Coding(fmt, code) && Encodable(fmt, p)
    ensures C.Storable(fmt, Encoded(code, p))
  {
    hide C.Delimits;
    var n := Encoded(code, p);
    if p.InternalPage? {
      var es := p.entries;
      forall i | 0 <= i < |es| - 1
        ensures C.Delimits(fmt.keySize, C.Separators(n.branches)[i])
      {
        assert C.Separators(n.branches)[i] == code(es[i + 1].minKey.value);
      }
      forall i | 0 <= i < |p.queue|
        ensures C.QueuedOk(fmt, n.queue[i])
      {
        assert EditOk(fmt, p.queue[i]);
      }
    }
  }

  lemma EncodedStripped(fmt: C.Format, code: KeyCode, p: B.Page)
    requires Encodable(fmt, p)
    ensures C.Stripped(Encoded(code, p)) == Encoded(code, p)
  {
    hide C.Delimits;
    if p.InternalPage? {
      var n := Encoded(code, p);
      var s := C.Stripped(n);
      forall i | 0 <= i < |n.queue|
        ensures n.queue[i] == s.queue[i]
      {
        assert EditOk(fmt, p.queue[i]);
      }
      assert n.branches == s.branches && n.queue == s.queue;
    }
  }

  lemma WideFits()
    ensures WIDE <= C.Pow(C.ID_SIZE)
  {
    C.Pow4();
    PowGrows(8, 20);
    assert C.Pow(8) == 256 * C.Pow(7) && C.Pow(7) == 256 * C.Pow(6) && C.Pow(6) == 256 * C.Pow(5);
    assert C.Pow(5) == 256 * C.Pow(4);
  }

  lemma {:induction false} PowGrows(a: nat, b: nat)
    requires a <= b
    ensures C.Pow(a) <= C.Pow(b)
    decreases b
  {
    if a < b {
      PowGrows(a, b - 1);
    }
  }

  lemma NamesDiffer(i: Id, j: Id)
    requires i < WIDE && j < WIDE && Named(i) == Named(j)
    ensures i == j
  {
    WideFits();
    C.NumberBack(i, C.ID_SIZE);
    C.NumberBack(j, C.ID_SIZE);
  }

  lemma SamePairs(code: KeyCode, ps: seq<Pair>, qs: seq<Pair>)
    requires (forall j, k :: code(j) == code(k) ==> j == k) && EncodedPairs(code, ps) == EncodedPairs(code, qs)
    ensures ps == qs
  {
    assert |ps| == |EncodedPairs(code, ps)| == |qs|;
    forall i | 0 <= i < |ps|
      ensures ps[i] == qs[i]
    {
      assert EncodedPairs(code, ps)[i] == EncodedPairs(code, qs)[i];
    }
  }

  lemma SameLinks(a: B.Link, b: B.Link)
    requires LinkOk(a) && LinkOk(b) && RefOf(a) == RefOf(b)
    ensures a == b
  {
    NamesDiffer(a.id, b.id);
  }

  lemma SameQueues(code: KeyCode, q: seq<Edit>, r: seq<Edit>)
    requires (forall j, k :: code(j) == code(k) ==> j == k) && EncodedQueue(code, q) == EncodedQueue(code, r)
    ensures q == r
  {
    assert |q| == |EncodedQueue(code, q)| == |r|;
    forall i | 0 <= i < |q|
      ensures q[i] == r[i]
    {
      assert EncodedQueue(code, q)[i] == EncodedQueue(code, r)[i];
    }
  }

  lemma SameEntries(fmt: C.Format, code: KeyCode, p: B.Page, q: B.Page)
    requires Coding(fmt, code) && Encodable(fmt, p) && Encodable(fmt, q) && p.InternalPage? && q.InternalPage?
    requires EncodedEntries(code, p.entries) == EncodedEntries(code, q.entries)
    ensures p.entries == q.entries
  {
    hide C.Delimits, Named;
    var a, b := p.entries, q.entries;
    assert |a| == |EncodedEntries(code, a)| == |b|;
    forall i | 0 <= i < |a|
      ensures a[i] == b[i]
    {
      assert EncodedEntries(code, a)[i] == EncodedEntries(code, b)[i];
      NamesDiffer(a[i].id, b[i].id);
    }
  }

  /** Different pages have different encodings. */
  lemma EncodedDiffer(fmt: C.Format, code: KeyCode, p: B.Page, q: B.Page)
    requires Coding(fmt, code) && Encodable(fmt, p) && Encodable(fmt, q)
    ensures Encoded(code, p) == Encoded(code, q) <==> p == q
  {
    hide C.Delimits, EncodedPairs, EncodedEntries, EncodedQueue, RefOf;
    if Encoded(code, p) == Encoded(code, q) {
      match p {
        case LeafPage(ps, o) =>
          SamePairs(code, ps, q.pairs);
          SameLinks(o, q.overflow);
        case OverflowPage(vs, o) =>
          SameLinks(o, q.next);
        case InternalPage(es, r) =>
          SameEntries(fmt, code, p, q);
          SameQueues(code, r, q.queue);
      }
    }
  }

  /**
   * What is read is what was put: the bytes of a page parse to that page, and
   * different pages have different bytes.
   */
  lemma BytesSay(fmt: C.Format, code: KeyCode, p: B.Page, q: B.Page)
    requires Coding(fmt, code) && Encodable(fmt, p) && Encodable(fmt, q)
    ensures var bytes := C.Bytes(Encoded(code, p)); C.Parse(fmt, bytes) == C.Got(Encoded(code, p), |bytes|)
    ensures C.Bytes(Encoded(code, p)) == C.Bytes(Encoded(code, q)) <==> p == q
  {
    hide C.Storable, C.Stripped, C.Parse, C.Bytes, C.Size, Encoded, Encodable, Coding;
    EncodedStorable(fmt, code, p);
    EncodedStorable(fmt, code, q);
    EncodedStripped(fmt, code, p);
    EncodedStripped(fmt, code, q);
    C.RoundTrip(fmt, Encoded(code, p));
    C.RoundTrip(fmt, Encoded(code, q));
    EncodedDiffer(fmt, code, p, q);
  }

  /** The page of a search-ordered node can be encoded, if its numbers and values can. */
  lemma NodeEncodable(fmt: C.Format, n: Node, lo: Option<Key>, hi: Option<Key>)
    requires Ordered(n, lo, hi) && Sized(fmt, n)
    ensures Encodable(fmt, B.PageOf(n))
  {
    hide C.Delimits;
    if n.Internal? {
      var p := B.PageOf(n);
      forall i | 0 <= i < |p.queue|
        ensures EditOk(fmt, p.queue[i])
      {
        assert EditOk(fmt, n.queue[i].(guaranteed := false));
      }
    }
  }

  /** Counts and ids within the widths of their types, and well-formed values. */
  ghost predicate Sized(fmt: C.Format, n: Node) {
    match n
    case Leaf(l) =>
      && |l.pairs| < WORD && LinkOk(B.LinkTo(l.chain))
      && forall i :: 0 <= i < |l.pairs| ==> C.Delimits(fmt.valueSize, l.pairs[i].value)
    case Internal(bs, q) =>
      && |bs| < WORD && |q| < WORD
      && (forall i :: 0 <= i < |bs| ==> 0 <= bs[i].count < WORD && bs[i].id < WIDE)
      && (forall i :: 0 <= i < |q| ==> EditOk(fmt, q[i].(guaranteed := false)))
  }
}
