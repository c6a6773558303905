/** The bytes of a page: layout, size, and reading it back. */
module Codec {
  import opened Types

  type Slice = seq<Byte>

  /** How long the encoded key or value is that starts here. */
  datatype Format = Format(keySize: Slice -> nat, valueSize: Slice -> nat)

  datatype Ref = Ref(count: nat, id: Slice)

  datatype Entry = Entry(minKey: Slice, ref: Ref)

  datatype Queued = Queued(op: Op, key: Slice, value: Slice, guaranteed: bool)

  /** A node as far as its page goes; keys and values are encoded. */
  datatype PageNode =
    | Leaf(pairs: seq<(Slice, Slice)>, overflow: Ref)
    | Overflow(values: seq<Slice>, next: Ref)
    | Internal(branches: seq<Entry>, queue: seq<Queued>)

  // ---------------------------------------------------------------- numbers

  function Pow(w: nat): (r: nat)
    ensures r > 0
  {
    if w == 0 then 1 else 256 * Pow(w - 1)
  }

  /** A number in w bytes, lowest first, as the processor stores it. */
  function Little(n: nat, w: nat): (r: Slice)
    ensures |r| == w
  {
    if w == 0 then [] else [(n % 256) as Byte] + Little(n / 256, w - 1)
  }

  function Number(s: Slice): nat {
    if |s| == 0 then 0 else (s[0] as int) + 256 * Number(s[1..])
  }

  lemma {:induction false} NumberBack(n: nat, w: nat)
    requires n < Pow(w)
    ensures Number(Little(n, w)) == n
  {
    if w > 0 {
      NumberBack(n / 256, w - 1);
      assert Little(n, w)[1..] == Little(n / 256, w - 1);
    }
  }

  lemma Pow4()
    ensures Pow(4) == 0x1_0000_0000 && Pow(2) == 0x1_0000
  {
    assert Pow(1) == 256 * Pow(0);
    assert Pow(2) == 256 * Pow(1);
    assert Pow(3) == 256 * Pow(2);
  }

  // ---------------------------------------------------------------- layout

  const LEAF := 0
  const INTERNAL := 1
  const OVERFLOW := 2
  const ID_SIZE := 20

  function Concat(xs: seq<Slice>): Slice {
    if |xs| == 0 then [] else xs[0] + Concat(xs[1..])
  }

  function Keys(ps: seq<(Slice, Slice)>): (r: seq<Slice>)
    ensures |r| == |ps|
  {
    seq(|ps|, i requires 0 <= i < |ps| => ps[i].0)
  }

  function Values(ps: seq<(Slice, Slice)>): (r: seq<Slice>)
    ensures |r| == |ps|
  {
    seq(|ps|, i requires 0 <= i < |ps| => ps[i].1)
  }

  /** The separators, except for the first one. */
  function Separators(bs: seq<Entry>): (r: seq<Slice>)
    ensures |r| == if |bs| == 0 then 0 else |bs| - 1
  {
    if |bs| == 0 then [] else seq(|bs| - 1, i requires 0 <= i < |bs| - 1 => bs[i + 1].minKey)
  }

  function Ids(bs: seq<Entry>): (r: seq<Slice>)
    ensures |r| == |bs|
  {
    seq(|bs|, i requires 0 <= i < |bs| => bs[i].ref.id)
  }

  function Counts(bs: seq<Entry>): (r: seq<Slice>)
    ensures |r| == |bs|
  {
    seq(|bs|, i requires 0 <= i < |bs| => Little(bs[i].ref.count, 4))
  }

  function OpByte(op: Op): Byte {
    match op
    case INSERT => 0
    case REMOVE_KEY => 1
    case REMOVE_KV => 2
    case UPSERT => 3
  }

  function OpTypes(q: seq<Queued>): (r: seq<Slice>)
    ensures |r| == |q|
  {
    seq(|q|, i requires 0 <= i < |q| => [OpByte(q[i].op)])
  }

  function EditKeys(q: seq<Queued>): (r: seq<Slice>)
    ensures |r| == |q|
  {
    seq(|q|, i requires 0 <= i < |q| => q[i].key)
  }

  /** A removal by key has no value on the page. */
  function EditValues(q: seq<Queued>): (r: seq<Slice>)
    ensures |r| == |q|
  {
    seq(|q|, i requires 0 <= i < |q| => if q[i].op == REMOVE_KEY then [] else q[i].value)
  }

  function RefBytes(r: Ref): Slice { Little(r.count, 4) + r.id }

  /** The page. */
  function Bytes(n: PageNode): Slice {
    match n
    case Leaf(ps, o) => Little(LEAF, 2) + Little(|ps|, 4) + Concat(Keys(ps)) + Concat(Values(ps)) + RefBytes(o)
    case Overflow(vs, o) => Little(OVERFLOW, 2) + Little(|vs|, 4) + Concat(vs) + RefBytes(o)
    case Internal(bs, q) =>
      Little(INTERNAL, 2) + Little(|bs|, 4) + Little(|q|, 4)
        + Concat(Separators(bs)) + Concat(Ids(bs)) + Concat(Counts(bs))
        + Concat(OpTypes(q)) + Concat(EditKeys(q)) + Concat(EditValues(q))
  }

  // ---------------------------------------------------------------- pages written out

  lemma FourBytes(n: nat)
    requires n < 256
    ensures Little(n, 2) == [n as Byte, 0] && Little(n, 4) == [n as Byte, 0, 0, 0]
  {
    assert n % 256 == n && n / 256 == 0;
    NoBytes(3);
    NoBytes(1);
    assert Little(n, 4) == [n as Byte] + Little(0, 3);
    assert Little(n, 2) == [n as Byte] + Little(0, 1);
  }

  lemma {:induction false} NoBytes(w: nat)
    ensures Little(0, w) == seq(w, _ => 0)
  {
    if w > 0 {
      NoBytes(w - 1);
      assert Little(0, w) == [0] + Little(0, w - 1);
    }
  }

  lemma ConcatTwo(a: Slice, b: Slice)
    ensures Concat([]) == [] && Concat([a]) == a && Concat([a, b]) == a + b
  {
    assert [a][1..] == [] && [a, b][1..] == [b] && [b][1..] == [];
    assert a + [] == a && b + [] == b;
  }

  lemma ConcatFour(a: Slice, b: Slice, c: Slice, d: Slice)
    ensures Concat([a, b, c, d]) == a + b + (c + d)
  {
    ConcatTwo(c, d);
    assert [a, b, c, d][1..] == [b, c, d] && [b, c, d][1..] == [c, d];
  }

  /** The bytes of a leaf with two pairs: type 0, the number of pairs, keys, values, link. */
  lemma LeafWrittenOut(id: Slice)
    requires |id| == ID_SIZE
    ensures Bytes(Leaf([([7], [1, 2]), ([9], [3])], Ref(5, id)))
         == [0, 0] + [2, 0, 0, 0] + [7, 9] + [1, 2, 3] + ([5, 0, 0, 0] + id)
  {
    hide Little, Concat;
    var ps: seq<(Slice, Slice)> := [([7], [1, 2]), ([9], [3])];
    FourBytes(0);
    FourBytes(2);
    FourBytes(5);
    assert Keys(ps) == [[7], [9]] && Values(ps) == [[1, 2], [3]];
    ConcatTwo([7], [9]);
    ConcatTwo([1, 2], [3]);
    assert [7] + [9] == [7, 9] && [1, 2] + [3] == [1, 2, 3];
  }

  /** The bytes of an overflow node with two values: type 2, the number of values, values, link. */
  lemma OverflowWrittenOut(id: Slice)
    requires |id| == ID_SIZE
    ensures Bytes(Overflow([[1, 2], [3]], Ref(5, id))) == [2, 0] + [2, 0, 0, 0] + [1, 2, 3] + ([5, 0, 0, 0] + id)
  {
    hide Little, Concat;
    FourBytes(2);
    FourBytes(5);
    ConcatTwo([1, 2], [3]);
    assert [1, 2] + [3] == [1, 2, 3];
  }

  /**
   * The bytes of an internal node with two branches and one edit of each kind:
   * type 1, the numbers of branches and edits, the second separator, ids, counts,
   * the kinds 0 to 3, keys, and the values of all but the removal by key.
   */
  lemma InternalWrittenOut(a: Slice, b: Slice)
    requires |a| == |b| == ID_SIZE
    ensures Bytes(Internal([Entry([], Ref(5, a)), Entry([7], Ref(6, b))],
                           [Queued(INSERT, [10], [20], true), Queued(REMOVE_KEY, [11], [], true),
                            Queued(REMOVE_KV, [12], [22], true), Queued(UPSERT, [13], [23], true)]))
         == [1, 0] + [2, 0, 0, 0] + [4, 0, 0, 0] + [7] + (a + b) + [5, 0, 0, 0, 6, 0, 0, 0]
            + [0, 1, 2, 3] + [10, 11, 12, 13] + [20, 22, 23]
  {
    hide Little, Concat;
    var bs := [Entry([], Ref(5, a)), Entry([7], Ref(6, b))];
    var q := [Queued(INSERT, [10], [20], true), Queued(REMOVE_KEY, [11], [], true),
              Queued(REMOVE_KV, [12], [22], true), Queued(UPSERT, [13], [23], true)];
    FourBytes(1);
    FourBytes(2);
    FourBytes(4);
    FourBytes(5);
    FourBytes(6);
    assert Separators(bs) == [[7]] && Ids(bs) == [a, b] && Counts(bs) == [[5, 0, 0, 0], [6, 0, 0, 0]];
    ConcatTwo([7], []);
    ConcatTwo(a, b);
    ConcatTwo([5, 0, 0, 0], [6, 0, 0, 0]);
    EditsWrittenOut(q);
    assert [5, 0, 0, 0] + [6, 0, 0, 0] == [5, 0, 0, 0, 6, 0, 0, 0];
  }

  lemma EditsWrittenOut(q: seq<Queued>)
    requires q == [Queued(INSERT, [10], [20], true), Queued(REMOVE_KEY, [11], [], true),
                   Queued(REMOVE_KV, [12], [22], true), Queued(UPSERT, [13], [23], true)]
    ensures Concat(OpTypes(q)) == [0, 1, 2, 3] && Concat(EditKeys(q)) == [10, 11, 12, 13]
    ensures Concat(EditValues(q)) == [20, 22, 23]
  {
    hide Concat;
    assert OpTypes(q) == [[0], [1], [2], [3]];
    ConcatFour([0], [1], [2], [3]);
    assert EditKeys(q) == [[10], [11], [12], [13]];
    ConcatFour([10], [11], [12], [13]);
    assert EditValues(q) == [[20], [], [22], [23]];
    ConcatFour([20], [], [22], [23]);
  }

  // ---------------------------------------------------------------- sizes

  function Lengths(xs: seq<Slice>): nat {
    if |xs| == 0 then 0 else |xs[0]| + Lengths(xs[1..])
  }

  lemma {:induction false} ConcatLength(xs: seq<Slice>)
    ensures |Concat(xs)| == Lengths(xs)
  {
    if |xs| > 0 {
      ConcatLength(xs[1..]);
    }
  }

  lemma {:induction false} LengthsAll(xs: seq<Slice>, w: nat)
    requires forall i :: 0 <= i < |xs| ==> |xs[i]| == w
    ensures Lengths(xs) == w * |xs|
  {
    if |xs| > 0 {
      LengthsAll(xs[1..], w);
    }
  }

  /** The bytes of the queue, as they are added up: a removal by key counts its value, which is not stored. */
  function QueueSize(q: seq<Queued>): nat {
    if |q| == 0 then 0 else 1 + |q[0].key| + |q[0].value| + QueueSize(q[1..])
  }

  /** The size computed before a page is allocated. */
  function Size(n: PageNode): nat {
    match n
    case Leaf(ps, _) => 6 + 24 + Lengths(Keys(ps)) + Lengths(Values(ps))
    case Overflow(vs, _) => 6 + 24 + Lengths(vs)
    case Internal(bs, q) => 6 + 4 + Lengths(Separators(bs)) + 24 * |bs| + QueueSize(q)
  }

  // ---------------------------------------------------------------- what can be stored

  /** An encoding says where it ends, whatever follows it. */
  ghost predicate Delimits(size: Slice -> nat, x: Slice) {
    |x| >= 1 && forall rest: Slice :: size(x + rest) == |x|
  }

  ghost predicate AllDelimit(size: Slice -> nat, xs: seq<Slice>) {
    forall i :: 0 <= i < |xs| ==> Delimits(size, xs[i])
  }

  predicate RefOk(r: Ref) { r.count < 0x1_0000_0000 && |r.id| == ID_SIZE }

  ghost predicate QueuedOk(fmt: Format, e: Queued) {
    Delimits(fmt.keySize, e.key) && if e.op == REMOVE_KEY then e.value == [] else Delimits(fmt.valueSize, e.value)
  }

  ghost predicate Storable(fmt: Format, n: PageNode) {
    match n
    case Leaf(ps, o) =>
      |ps| < 0x1_0000_0000 && AllDelimit(fmt.keySize, Keys(ps)) && AllDelimit(fmt.valueSize, Values(ps)) && RefOk(o)
    case Overflow(vs, o) => |vs| < 0x1_0000_0000 && AllDelimit(fmt.valueSize, vs) && RefOk(o)
    case Internal(bs, q) =>
      && 0 < |bs| < 0x1_0000_0000 && |q| < 0x1_0000_0000
      && AllDelimit(fmt.keySize, Separators(bs))
      && (forall i :: 0 <= i < |bs| ==> RefOk(bs[i].ref))
      && (forall i :: 0 <= i < |q| ==> QueuedOk(fmt, q[i]))
  }

  /** What a page does not hold: the first separator, and whether edits are guaranteed. */
  function Stripped(n: PageNode): PageNode {
    match n
    case Leaf(_, _) => n
    case Overflow(_, _) => n
    case Internal(bs, q) =>
      Internal(if |bs| == 0 then bs else bs[0 := bs[0].(minKey := [])],
               seq(|q|, i requires 0 <= i < |q| => q[i].(guaranteed := false)))
  }

  /** Serializing a stripped node gives the same bytes. */
  lemma StrippedBytes(n: PageNode)
    ensures Bytes(Stripped(n)) == Bytes(n)
  {
    if n.Internal? {
      var bs, q := n.branches, n.queue;
      var cs, r := Stripped(n).branches, Stripped(n).queue;
      assert Separators(cs) == Separators(bs) && Ids(cs) == Ids(bs) && Counts(cs) == Counts(bs);
      assert OpTypes(r) == OpTypes(q) && EditKeys(r) == EditKeys(q) && EditValues(r) == EditValues(q);
    }
  }

  lemma RefLength(r: Ref)
    requires RefOk(r)
    ensures |RefBytes(r)| == 24
  {
  }

  /** The bytes of values that are counted but not stored. */
  function Strays(q: seq<Queued>): nat {
    if |q| == 0 then 0 else (if q[0].op == REMOVE_KEY then |q[0].value| else 0) + Strays(q[1..])
  }

  lemma {:induction false} NoStrays(q: seq<Queued>)
    ensures Strays(q) == 0 <==> forall i :: 0 <= i < |q| && q[i].op == REMOVE_KEY ==> q[i].value == []
  {
    if |q| > 0 {
      NoStrays(q[1..]);
      assert q == [q[0]] + q[1..];
    }
  }

  lemma {:induction false} QueueLengths(q: seq<Queued>)
    ensures Lengths(OpTypes(q)) + Lengths(EditKeys(q)) + Lengths(EditValues(q)) + Strays(q) == QueueSize(q)
  {
    if |q| > 0 {
      assert OpTypes(q)[1..] == OpTypes(q[1..]) && EditKeys(q)[1..] == EditKeys(q[1..]);
      assert EditValues(q)[1..] == EditValues(q[1..]);
      QueueLengths(q[1..]);
    }
  }

  /** Ids have their size. */
  predicate RefsOk(n: PageNode) {
    match n
    case Leaf(_, o) => RefOk(o)
    case Overflow(_, o) => RefOk(o)
    case Internal(bs, _) => forall i :: 0 <= i < |bs| ==> RefOk(bs[i].ref)
  }

  /** No removal by key carries a value. */
  predicate Strayless(n: PageNode) {
    n.Internal? ==> forall i :: 0 <= i < |n.queue| && n.queue[i].op == REMOVE_KEY ==> n.queue[i].value == []
  }

  /**
   * The computed size is never less than the bytes of the page, and exactly
   * these bytes if and only if no removal by key carries a value: then the
   * assertion at the end of serializing holds.
   */
  lemma SizeExact(n: PageNode)
    requires RefsOk(n)
    ensures |Bytes(n)| <= Size(n)
    ensures |Bytes(n)| == Size(n) <==> Strayless(n)
  {
    match n
    case Leaf(ps, o) =>
      ConcatLength(Keys(ps));
      ConcatLength(Values(ps));
    case Overflow(vs, o) => ConcatLength(vs);
    case Internal(bs, q) => InternalSize(bs, q);
  }

  /** One removal by key that carries a value: the value is counted, and not written. */
  lemma SizeStray(key: Slice, value: Slice)
    requires value != []
    ensures var n := Internal([], [Queued(REMOVE_KEY, key, value, false)]); |Bytes(n)| < Size(n)
  {
    hide Bytes, Size;
    var n := Internal([], [Queued(REMOVE_KEY, key, value, false)]);
    assert n.queue[0].op == REMOVE_KEY && n.queue[0].value != [];
    SizeExact(n);
  }

  lemma InternalSize(bs: seq<Entry>, q: seq<Queued>)
    requires RefsOk(Internal(bs, q))
    ensures |Bytes(Internal(bs, q))| + Strays(q) == Size(Internal(bs, q))
    ensures Strays(q) == 0 <==> Strayless(Internal(bs, q))
  {
    hide Lengths, Concat, Little, Strays, QueueSize;
    ConcatLength(Separators(bs));
    ConcatLength(Ids(bs));
    LengthsAll(Ids(bs), 20);
    ConcatLength(Counts(bs));
    LengthsAll(Counts(bs), 4);
    ConcatLength(OpTypes(q));
    ConcatLength(EditKeys(q));
    ConcatLength(EditValues(q));
    QueueLengths(q);
    NoStrays(q);
  }

  lemma StorableRefs(fmt: Format, n: PageNode)
    requires Storable(fmt, n)
    ensures RefsOk(n) && Strayless(n)
  {
    hide Delimits;
    if n.Internal? {
      forall i | 0 <= i < |n.queue| && n.queue[i].op == REMOVE_KEY
        ensures n.queue[i].value == []
      {
        assert QueuedOk(fmt, n.queue[i]);
      }
    }
  }

  // ---------------------------------------------------------------- reading

  /** Reading gives a value and the offset behind it, or throws, or would read outside the page. */
  datatype Read<+T> = Got(value: T, offset: nat) | Throws | Wild
  {
    predicate IsFailure() { !Got? }

    function PropagateFailure<U>(): Read<U>
      requires IsFailure()
    {
      if Throws? then Throws else Wild
    }

    function Extract(): (T, nat)
      requires !IsFailure()
    {
      (value, offset)
    }
  }

  /** VALIDATE_OFFSET, the size at the offset, and the slice; one that ends outside makes the parser throw later. */
  function ReadSlice(size: Slice -> nat, page: Slice, at: nat): Read<Slice> {
    if at >= |page| then Throws
    else
      var n := size(page[at..]);
      if at + n > |page| then Throws else Got(page[at..at + n], at + n)
  }

  function ReadColumn(size: Slice -> nat, page: Slice, at: nat, count: nat): (r: Read<seq<Slice>>)
    ensures r.Got? ==> |r.value| == count
    decreases count
  {
    if count == 0 then Got([], at)
    else
      var x :- ReadSlice(size, page, at);
      var xs :- ReadColumn(size, page, x.1, count - 1);
      Got([x.0] + xs.0, xs.1)
  }

  /** VALIDATE_OFFSET, and w bytes. */
  function ReadBytes(page: Slice, at: nat, w: nat): (r: Read<Slice>)
    ensures r.Got? ==> |r.value| == w
  {
    if at >= |page| then Throws
    else if at + w > |page| then Wild
    else Got(page[at..at + w], at + w)
  }

  function ReadFixed(page: Slice, at: nat, w: nat, count: nat): (r: Read<seq<Slice>>)
    ensures r.Got? ==> |r.value| == count && forall i :: 0 <= i < count ==> |r.value[i]| == w
    decreases count
  {
    if count == 0 then Got([], at)
    else
      var x :- ReadBytes(page, at, w);
      var xs :- ReadFixed(page, x.1, w, count - 1);
      Got([x.0] + xs.0, xs.1)
  }

  /** A byte that is no edit type stands for no value of the enumeration. */
  function OpOf(b: Byte): Option<Op> {
    if b == 0 then Some(INSERT) else if b == 1 then Some(REMOVE_KEY) else if b == 2 then Some(REMOVE_KV)
    else if b == 3 then Some(UPSERT) else None
  }

  function ReadOps(page: Slice, at: nat, count: nat): (r: Read<seq<Op>>)
    ensures r.Got? ==> |r.value| == count
    decreases count
  {
    if count == 0 then Got([], at)
    else if at >= |page| then Throws
    else if OpOf(page[at]).None? then Wild
    else
      var xs :- ReadOps(page, at + 1, count - 1);
      Got([OpOf(page[at]).value] + xs.0, xs.1)
  }

  /** The values of edits; a removal by key has none. */
  function ReadValues(fmt: Format, page: Slice, at: nat, ops: seq<Op>): (r: Read<seq<Slice>>)
    ensures r.Got? ==> |r.value| == |ops|
    decreases |ops|
  {
    if |ops| == 0 then Got([], at)
    else if ops[0] == REMOVE_KEY then
      var xs :- ReadValues(fmt, page, at, ops[1..]);
      Got([[]] + xs.0, xs.1)
    else
      var x :- ReadSlice(fmt.valueSize, page, at);
      var xs :- ReadValues(fmt, page, x.1, ops[1..]);
      Got([x.0] + xs.0, xs.1)
  }

  function ReadRef(page: Slice, at: nat): Read<Ref> {
    var count :- ReadBytes(page, at, 4);
    var id :- ReadBytes(page, count.1, ID_SIZE);
    Got(Ref(Number(count.0), id.0), id.1)
  }

  /** validateAtEnd. */
  function AtEnd(n: PageNode, page: Slice, at: nat): Read<PageNode> {
    if at != |page| then Throws else Got(n, at)
  }

  function ParseLeaf(fmt: Format, page: Slice, count: nat): Read<PageNode> {
    var keys :- ReadColumn(fmt.keySize, page, 6, count);
    var values :- ReadColumn(fmt.valueSize, page, keys.1, count);
    var o :- ReadRef(page, values.1);
    AtEnd(Leaf(Pairs(keys.0, values.0), o.0), page, o.1)
  }

  function Pairs(keys: seq<Slice>, values: seq<Slice>): (r: seq<(Slice, Slice)>)
    requires |keys| == |values|
    ensures |r| == |keys|
  {
    seq(|keys|, i requires 0 <= i < |keys| => (keys[i], values[i]))
  }

  function ParseOverflow(fmt: Format, page: Slice, count: nat): Read<PageNode> {
    var values :- ReadColumn(fmt.valueSize, page, 6, count);
    var o :- ReadRef(page, values.1);
    AtEnd(Overflow(values.0, o.0), page, o.1)
  }

  function Edits(ops: seq<Op>, keys: seq<Slice>, values: seq<Slice>): (r: seq<Queued>)
    requires |ops| == |keys| == |values|
    ensures |r| == |ops|
  {
    seq(|ops|, i requires 0 <= i < |ops| => Queued(ops[i], keys[i], values[i], false))
  }

  /** The branches: the first one has no separator. */
  function Branches(seps: seq<Slice>, ids: seq<Slice>, counts: seq<Slice>): (r: seq<Entry>)
    requires |ids| == |counts| && |seps| + 1 == |ids|
    ensures |r| == |ids|
  {
    seq(|ids|, i requires 0 <= i < |ids| =>
      Entry(if i == 0 then [] else seps[i - 1], Ref(Number(counts[i]), ids[i])))
  }

  /** A page that says it has no branch makes the parser keep one branch it never fills. */
  function ParseInternal(fmt: Format, page: Slice, count: nat): Read<PageNode> {
    if 10 > |page| then Wild
    else
      var edits := Number(page[6..10]);
      if count == 0 then ParseQueue(fmt, page, 10, edits, [Entry([], Ref(0, Little(0, ID_SIZE)))])
      else
        var seps :- ReadColumn(fmt.keySize, page, 10, count - 1);
        var ids :- ReadFixed(page, seps.1, ID_SIZE, count);
        var counts :- ReadFixed(page, ids.1, 4, count);
        ParseQueue(fmt, page, counts.1, edits, Branches(seps.0, ids.0, counts.0))
  }

  function ParseQueue(fmt: Format, page: Slice, at: nat, edits: nat, bs: seq<Entry>): Read<PageNode> {
    var ops :- ReadOps(page, at, edits);
    var keys :- ReadColumn(fmt.keySize, page, ops.1, edits);
    var values :- ReadValues(fmt, page, keys.1, ops.0);
    AtEnd(Internal(bs, Edits(ops.0, keys.0, values.0)), page, values.1)
  }

  /** ParseNode. */
  function Parse(fmt: Format, page: Slice): Read<PageNode> {
    if |page| < 6 then Wild
    else
      var flags, count := Number(page[0..2]), Number(page[2..6]);
      if flags == INTERNAL then ParseInternal(fmt, page, count)
      else if flags == LEAF then ParseLeaf(fmt, page, count)
      else if flags == OVERFLOW then ParseOverflow(fmt, page, count)
      else Throws
  }

  /** A piece of the page. */
  ghost predicate Holds(page: Slice, at: nat, x: Slice) {
    at + |x| <= |page| && page[at..at + |x|] == x
  }

  lemma HoldsParts(page: Slice, at: nat, x: Slice, y: Slice)
    requires Holds(page, at, x + y)
    ensures Holds(page, at, x) && Holds(page, at + |x|, y)
  {
    var z := page[at..at + |x + y|];
    assert z == x + y;
    assert page[at..at + |x|] == z[..|x|] == x;
    assert page[at + |x|..at + |x| + |y|] == z[|x|..] == y;
  }

  lemma SliceBack(size: Slice -> nat, page: Slice, at: nat, x: Slice)
    requires Holds(page, at, x) && Delimits(size, x)
    ensures ReadSlice(size, page, at) == Got(x, at + |x|)
  {
    assert page[at..] == x + page[at + |x|..];
  }

  /** A column that stands on the page is read back, and ends where it ends. */
  lemma {:induction false} ColumnBack(size: Slice -> nat, page: Slice, at: nat, xs: seq<Slice>)
    requires AllDelimit(size, xs) && Holds(page, at, Concat(xs))
    ensures ReadColumn(size, page, at, |xs|) == Got(xs, at + |Concat(xs)|)
    decreases |xs|
  {
    hide Delimits;
    if |xs| > 0 {
      HoldsParts(page, at, xs[0], Concat(xs[1..]));
      assert Delimits(size, xs[0]);
      SliceBack(size, page, at, xs[0]);
      ColumnBack(size, page, at + |xs[0]|, xs[1..]);
      assert [xs[0]] + xs[1..] == xs;
    }
  }

  lemma BytesBack(page: Slice, at: nat, x: Slice)
    requires Holds(page, at, x) && |x| > 0
    ensures ReadBytes(page, at, |x|) == Got(x, at + |x|)
  {
  }

  lemma {:induction false} FixedBack(page: Slice, at: nat, w: nat, xs: seq<Slice>)
    requires w > 0 && (forall i :: 0 <= i < |xs| ==> |xs[i]| == w) && Holds(page, at, Concat(xs))
    ensures ReadFixed(page, at, w, |xs|) == Got(xs, at + |Concat(xs)|)
    decreases |xs|
  {
    if |xs| > 0 {
      HoldsParts(page, at, xs[0], Concat(xs[1..]));
      BytesBack(page, at, xs[0]);
      FixedBack(page, at + w, w, xs[1..]);
      assert [xs[0]] + xs[1..] == xs;
    }
  }

  function Ops(q: seq<Queued>): (r: seq<Op>)
    ensures |r| == |q|
  {
    seq(|q|, i requires 0 <= i < |q| => q[i].op)
  }

  lemma {:induction false} OpsBack(page: Slice, at: nat, q: seq<Queued>)
    requires Holds(page, at, Concat(OpTypes(q)))
    ensures ReadOps(page, at, |q|) == Got(Ops(q), at + |Concat(OpTypes(q))|)
    decreases |q|
  {
    if |q| > 0 {
      var ts := OpTypes(q);
      assert ts[1..] == OpTypes(q[1..]) && Concat(ts) == ts[0] + Concat(ts[1..]);
      HoldsParts(page, at, ts[0], Concat(ts[1..]));
      assert page[at] == page[at..at + 1][0] == OpByte(q[0].op);
      OpsBack(page, at + 1, q[1..]);
      assert [q[0].op] + Ops(q[1..]) == Ops(q);
    }
  }

  lemma ValuesStep(q: seq<Queued>)
    requires |q| > 0
    ensures Ops(q)[1..] == Ops(q[1..]) && EditValues(q)[1..] == EditValues(q[1..])
    ensures EditValues(q)[0] == if q[0].op == REMOVE_KEY then [] else q[0].value
    ensures Concat(EditValues(q)) == EditValues(q)[0] + Concat(EditValues(q[1..]))
    ensures EditValues(q) == [EditValues(q)[0]] + EditValues(q[1..])
  {
    assert EditValues(q)[1..] == EditValues(q[1..]);
  }

  lemma {:induction false} ValuesBack(fmt: Format, page: Slice, at: nat, q: seq<Queued>)
    requires (forall i :: 0 <= i < |q| ==> QueuedOk(fmt, q[i])) && Holds(page, at, Concat(EditValues(q)))
    ensures ReadValues(fmt, page, at, Ops(q)) == Got(EditValues(q), at + |Concat(EditValues(q))|)
    decreases |q|
  {
    hide Delimits, EditValues, Concat, ReadSlice, Holds;
    if |q| == 0 {
      NoValues();
    } else {
      var x := EditValues(q)[0];
      ValuesStep(q);
      HoldsParts(page, at, x, Concat(EditValues(q[1..])));
      assert QueuedOk(fmt, q[0]);
      if q[0].op != REMOVE_KEY {
        SliceBack(fmt.valueSize, page, at, x);
      }
      ValuesBack(fmt, page, at + |x|, q[1..]);
    }
  }

  lemma NoValues()
    ensures EditValues([]) == [] && Concat([]) == []
  {
  }

  lemma RefBack(page: Slice, at: nat, r: Ref)
    requires RefOk(r) && Holds(page, at, RefBytes(r))
    ensures ReadRef(page, at) == Got(r, at + 24)
  {
    HoldsParts(page, at, Little(r.count, 4), r.id);
    BytesBack(page, at, Little(r.count, 4));
    BytesBack(page, at + 4, r.id);
    Pow4();
    NumberBack(r.count, 4);
  }

  /** Flags and count are read back from the front of a page. */
  lemma HeaderBack(page: Slice, flags: nat, count: nat, rest: Slice)
    requires page == Little(flags, 2) + Little(count, 4) + rest && flags < 0x1_0000 && count < 0x1_0000_0000
    ensures |page| >= 6 && Number(page[0..2]) == flags && Number(page[2..6]) == count && Holds(page, 6, rest)
  {
    assert page[0..2] == Little(flags, 2) && page[2..6] == Little(count, 4);
    assert page[6..6 + |rest|] == rest;
    Pow4();
    NumberBack(flags, 2);
    NumberBack(count, 4);
  }

  lemma LeafBack(fmt: Format, ps: seq<(Slice, Slice)>, o: Ref)
    requires Storable(fmt, Leaf(ps, o))
    ensures var page := Bytes(Leaf(ps, o)); Parse(fmt, page) == Got(Leaf(ps, o), |page|)
  {
    hide Number, Little, Delimits, Concat, ReadColumn, ReadRef;
    var page, ks, vs := Bytes(Leaf(ps, o)), Concat(Keys(ps)), Concat(Values(ps));
    assert page == Little(LEAF, 2) + Little(|ps|, 4) + (ks + (vs + RefBytes(o)));
    HeaderBack(page, LEAF, |ps|, ks + (vs + RefBytes(o)));
    HoldsParts(page, 6, ks, vs + RefBytes(o));
    HoldsParts(page, 6 + |ks|, vs, RefBytes(o));
    ColumnBack(fmt.keySize, page, 6, Keys(ps));
    ColumnBack(fmt.valueSize, page, 6 + |ks|, Values(ps));
    RefBack(page, 6 + |ks| + |vs|, o);
    assert Pairs(Keys(ps), Values(ps)) == ps;
  }

  lemma OverflowBack(fmt: Format, vs: seq<Slice>, o: Ref)
    requires Storable(fmt, Overflow(vs, o))
    ensures var page := Bytes(Overflow(vs, o)); Parse(fmt, page) == Got(Overflow(vs, o), |page|)
  {
    hide Number, Little, Delimits, Concat, ReadColumn, ReadRef;
    var page := Bytes(Overflow(vs, o));
    assert page == Little(OVERFLOW, 2) + Little(|vs|, 4) + (Concat(vs) + RefBytes(o));
    HeaderBack(page, OVERFLOW, |vs|, Concat(vs) + RefBytes(o));
    HoldsParts(page, 6, Concat(vs), RefBytes(o));
    ColumnBack(fmt.valueSize, page, 6, vs);
    RefBack(page, 6 + |Concat(vs)|, o);
  }

  lemma QueueBack(fmt: Format, page: Slice, at: nat, bs: seq<Entry>, q: seq<Queued>)
    requires forall i :: 0 <= i < |q| ==> QueuedOk(fmt, q[i])
    requires Holds(page, at, Concat(OpTypes(q)) + (Concat(EditKeys(q)) + Concat(EditValues(q))))
    requires at + |Concat(OpTypes(q))| + |Concat(EditKeys(q))| + |Concat(EditValues(q))| == |page|
    ensures ParseQueue(fmt, page, at, |q|, bs) == Got(Internal(bs, Stripped(Internal([], q)).queue), |page|)
  {
    hide Concat, ReadColumn, ReadOps, ReadValues, Delimits;
    var ts, ks, vs := OpTypes(q), EditKeys(q), EditValues(q);
    HoldsParts(page, at, Concat(ts), Concat(ks) + Concat(vs));
    HoldsParts(page, at + |Concat(ts)|, Concat(ks), Concat(vs));
    OpsBack(page, at, q);
    assert AllDelimit(fmt.keySize, ks) by {
      forall i | 0 <= i < |ks|
        ensures Delimits(fmt.keySize, ks[i])
      {
        assert QueuedOk(fmt, q[i]);
      }
    }
    ColumnBack(fmt.keySize, page, at + |Concat(ts)|, ks);
    ValuesBack(fmt, page, at + |Concat(ts)| + |Concat(ks)|, q);
    EditsBack(fmt, q);
  }

  lemma EditsBack(fmt: Format, q: seq<Queued>)
    requires forall i :: 0 <= i < |q| ==> QueuedOk(fmt, q[i])
    ensures Edits(Ops(q), EditKeys(q), EditValues(q)) == Stripped(Internal([], q)).queue
  {
    hide Delimits;
    forall i | 0 <= i < |q|
      ensures EditValues(q)[i] == q[i].value
    {
      assert QueuedOk(fmt, q[i]);
    }
  }

  lemma BranchesBack(bs: seq<Entry>)
    requires |bs| > 0 && forall i :: 0 <= i < |bs| ==> RefOk(bs[i].ref)
    ensures Branches(Separators(bs), Ids(bs), Counts(bs)) == bs[0 := bs[0].(minKey := [])]
  {
    hide Number, Little;
    var r := Branches(Separators(bs), Ids(bs), Counts(bs));
    forall i | 0 <= i < |bs|
      ensures r[i] == if i == 0 then bs[0].(minKey := []) else bs[i]
    {
      Pow4();
      assert RefOk(bs[i].ref);
      NumberBack(bs[i].ref.count, 4);
    }
  }

  lemma InternalBack(fmt: Format, bs: seq<Entry>, q: seq<Queued>)
    requires Storable(fmt, Internal(bs, q))
    ensures var page := Bytes(Internal(bs, q)); Parse(fmt, page) == Got(Stripped(Internal(bs, q)), |page|)
  {
    hide Number, Little, Delimits, Concat, ReadColumn, ReadFixed, ParseQueue, Branches, RefOk, Holds, Bytes,
      Separators, Ids, Counts, OpTypes, EditKeys, EditValues;
    var page := Bytes(Internal(bs, q));
    var ss, ids, cs := Concat(Separators(bs)), Concat(Ids(bs)), Concat(Counts(bs));
    var tail := Concat(OpTypes(q)) + (Concat(EditKeys(q)) + Concat(EditValues(q)));
    InternalLayout(bs, q, ss, ids, cs, tail);
    HeaderBack(page, INTERNAL, |bs|, Little(|q|, 4) + (ss + (ids + (cs + tail))));
    HoldsParts(page, 6, Little(|q|, 4), ss + (ids + (cs + tail)));
    HoldsParts(page, 10, ss, ids + (cs + tail));
    HoldsParts(page, 10 + |ss|, ids, cs + tail);
    HoldsParts(page, 10 + |ss| + |ids|, cs, tail);
    Pow4();
    NumberBack(|q|, 4);
    ColumnBack(fmt.keySize, page, 10, Separators(bs));
    IdLengths(bs);
    FixedBack(page, 10 + |ss|, ID_SIZE, Ids(bs));
    FixedBack(page, 10 + |ss| + |ids|, 4, Counts(bs));
    BranchesBack(bs);
    QueueBack(fmt, page, 10 + |ss| + |ids| + |cs|, bs[0 := bs[0].(minKey := [])], q);
  }

  lemma RegroupTail(front: Slice, c: Slice, d: Slice, e: Slice, f: Slice, g: Slice, h: Slice, i: Slice)
    ensures front + c + d + e + f + g + h + i == front + (c + (d + (e + (f + (g + (h + i))))))
  {
    Regroup(front + c + d + e + f + g, h, i);
    Regroup(front + c + d + e + f, g, h + i);
    Regroup(front + c + d + e, f, g + (h + i));
    Regroup(front + c + d, e, f + (g + (h + i)));
    Regroup(front + c, d, e + (f + (g + (h + i))));
    Regroup(front, c, d + (e + (f + (g + (h + i)))));
  }

  lemma InternalLayout(bs: seq<Entry>, q: seq<Queued>, ss: Slice, ids: Slice, cs: Slice, tail: Slice)
    requires ss == Concat(Separators(bs)) && ids == Concat(Ids(bs)) && cs == Concat(Counts(bs))
    requires tail == Concat(OpTypes(q)) + (Concat(EditKeys(q)) + Concat(EditValues(q)))
    ensures Bytes(Internal(bs, q))
         == Little(INTERNAL, 2) + Little(|bs|, 4) + (Little(|q|, 4) + (ss + (ids + (cs + tail))))
    ensures |Bytes(Internal(bs, q))| == 10 + |ss| + |ids| + |cs| + |tail|
  {
    hide Concat, Little, Separators, Ids, Counts, OpTypes, EditKeys, EditValues;
    RegroupTail(Little(INTERNAL, 2) + Little(|bs|, 4), Little(|q|, 4), ss, ids, cs,
                Concat(OpTypes(q)), Concat(EditKeys(q)), Concat(EditValues(q)));
  }

  lemma IdLengths(bs: seq<Entry>)
    requires forall i :: 0 <= i < |bs| ==> RefOk(bs[i].ref)
    ensures forall i :: 0 <= i < |bs| ==> |Ids(bs)[i]| == ID_SIZE && |Counts(bs)[i]| == 4
  {
    hide Little;
    forall i | 0 <= i < |bs|
      ensures |Ids(bs)[i]| == ID_SIZE && |Counts(bs)[i]| == 4
    {
      assert RefOk(bs[i].ref);
    }
  }

  /**
   * Page round trip: parsing the page of a node gives it back, up to the first
   * separator and the guaranteed flags, reads every byte and none outside, and
   * what was read serializes to the same page again.
   */
  lemma RoundTrip(fmt: Format, n: PageNode)
    requires Storable(fmt, n)
    ensures Parse(fmt, Bytes(n)) == Got(Stripped(n), |Bytes(n)|)
    ensures Bytes(Stripped(n)) == Bytes(n) && |Bytes(n)| == Size(n)
  {
    hide Storable, Parse, Bytes, Size, RefsOk, Strayless;
    StrippedBytes(n);
    StorableRefs(fmt, n);
    SizeExact(n);
    match n
    case Leaf(ps, o) => LeafBack(fmt, ps, o);
    case Overflow(vs, o) => OverflowBack(fmt, vs, o);
    case Internal(bs, q) => InternalBack(fmt, bs, q);
  }

  // ---------------------------------------------------------------- the other way around

  lemma {:induction false} LittleBack(s: Slice)
    ensures Little(Number(s), |s|) == s && Number(s) < Pow(|s|)
  {
    if |s| > 0 {
      LittleBack(s[1..]);
      assert Number(s) / 256 == Number(s[1..]) && Number(s) % 256 == s[0] as int;
      assert [s[0]] + s[1..] == s;
    }
  }

  lemma Adjoin(page: Slice, a: nat, b: nat, c: nat)
    requires a <= b <= c <= |page|
    ensures page[a..b] + page[b..c] == page[a..c]
  {
  }

  lemma {:induction false} ColumnRead(size: Slice -> nat, page: Slice, at: nat, count: nat)
    requires at <= |page| && ReadColumn(size, page, at, count).Got?
    ensures var r := ReadColumn(size, page, at, count);
            at <= r.offset <= |page| && page[at..r.offset] == Concat(r.value)
    decreases count
  {
    if count > 0 {
      var x := ReadSlice(size, page, at);
      ColumnRead(size, page, x.offset, count - 1);
      var r := ReadColumn(size, page, at, count);
      assert r.value[1..] == ReadColumn(size, page, x.offset, count - 1).value;
      Adjoin(page, at, x.offset, r.offset);
    }
  }

  lemma {:induction false} FixedRead(page: Slice, at: nat, w: nat, count: nat)
    requires at <= |page| && ReadFixed(page, at, w, count).Got?
    ensures var r := ReadFixed(page, at, w, count);
            at <= r.offset <= |page| && page[at..r.offset] == Concat(r.value)
    decreases count
  {
    if count > 0 {
      FixedRead(page, at + w, w, count - 1);
      var r := ReadFixed(page, at, w, count);
      assert r.value[1..] == ReadFixed(page, at + w, w, count - 1).value;
      Adjoin(page, at, at + w, r.offset);
    }
  }

  lemma RefRead(page: Slice, at: nat)
    requires ReadRef(page, at).Got?
    ensures var r := ReadRef(page, at);
            r.offset == at + 24 <= |page| && page[at..r.offset] == RefBytes(r.value) && RefOk(r.value)
  {
    LittleBack(page[at..at + 4]);
    Pow4();
    Adjoin(page, at, at + 4, at + 24);
  }

  /** The bytes of edit types, and of values, from the operations alone. */
  function TypeBytes(ops: seq<Op>): (r: seq<Slice>)
    ensures |r| == |ops|
  {
    seq(|ops|, i requires 0 <= i < |ops| => [OpByte(ops[i])])
  }

  lemma {:induction false} OpsRead(page: Slice, at: nat, count: nat)
    requires at <= |page| && ReadOps(page, at, count).Got?
    ensures var r := ReadOps(page, at, count);
            at <= r.offset <= |page| && page[at..r.offset] == Concat(TypeBytes(r.value))
    decreases count
  {
    if count > 0 {
      OpsRead(page, at + 1, count - 1);
      var r := ReadOps(page, at, count);
      var ts := TypeBytes(r.value);
      assert r.value[1..] == ReadOps(page, at + 1, count - 1).value;
      assert ts[1..] == TypeBytes(r.value[1..]) && ts[0] == [page[at]] == page[at..at + 1];
      Adjoin(page, at, at + 1, r.offset);
    }
  }

  lemma {:induction false} ValuesRead(fmt: Format, page: Slice, at: nat, ops: seq<Op>)
    requires at <= |page| && ReadValues(fmt, page, at, ops).Got?
    ensures var r := ReadValues(fmt, page, at, ops);
            && at <= r.offset <= |page| && page[at..r.offset] == Concat(r.value)
            && forall i :: 0 <= i < |ops| && ops[i] == REMOVE_KEY ==> r.value[i] == []
    decreases |ops|
  {
    if |ops| > 0 {
      var r := ReadValues(fmt, page, at, ops);
      var next := at + |r.value[0]|;
      ValuesRead(fmt, page, next, ops[1..]);
      var rest := ReadValues(fmt, page, next, ops[1..]);
      assert r.value[1..] == rest.value;
      Adjoin(page, at, next, r.offset);
      forall i | 0 <= i < |ops| && ops[i] == REMOVE_KEY
        ensures r.value[i] == []
      {
        if i > 0 {
          assert r.value[i] == rest.value[i - 1] && ops[i] == ops[1..][i - 1];
        }
      }
    }
  }

  lemma HeaderRead(page: Slice)
    requires |page| >= 6
    ensures page[..6] == Little(Number(page[0..2]), 2) + Little(Number(page[2..6]), 4)
  {
    LittleBack(page[0..2]);
    LittleBack(page[2..6]);
    Adjoin(page, 0, 2, 6);
  }

  lemma LeafRead(fmt: Format, page: Slice, count: nat)
    requires |page| >= 6 && ParseLeaf(fmt, page, count).Got?
    ensures var r := ParseLeaf(fmt, page, count);
            && r.offset == |page| && r.value.Leaf? && |r.value.pairs| == count
            && page[6..] == Concat(Keys(r.value.pairs)) + Concat(Values(r.value.pairs)) + RefBytes(r.value.overflow)
  {
    hide ReadColumn, ReadRef, RefBytes, Concat;
    var ks := ReadColumn(fmt.keySize, page, 6, count);
    var vs := ReadColumn(fmt.valueSize, page, ks.offset, count);
    var n := ParseLeaf(fmt, page, count).value;
    ColumnRead(fmt.keySize, page, 6, count);
    ColumnRead(fmt.valueSize, page, ks.offset, count);
    RefRead(page, vs.offset);
    assert Keys(n.pairs) == ks.value && Values(n.pairs) == vs.value;
    Adjoin(page, 6, ks.offset, vs.offset);
    Adjoin(page, 6, vs.offset, |page|);
  }

  lemma OverflowRead(fmt: Format, page: Slice, count: nat)
    requires |page| >= 6 && ParseOverflow(fmt, page, count).Got?
    ensures var r := ParseOverflow(fmt, page, count);
            && r.offset == |page| && r.value.Overflow? && |r.value.values| == count
            && page[6..] == Concat(r.value.values) + RefBytes(r.value.next)
  {
    hide ReadColumn, ReadRef, RefBytes, Concat;
    var vs := ReadColumn(fmt.valueSize, page, 6, count);
    ColumnRead(fmt.valueSize, page, 6, count);
    RefRead(page, vs.offset);
    Adjoin(page, 6, vs.offset, |page|);
  }

  lemma EditsRead(ops: seq<Op>, keys: seq<Slice>, values: seq<Slice>)
    requires |ops| == |keys| == |values|
    requires forall i :: 0 <= i < |ops| && ops[i] == REMOVE_KEY ==> values[i] == []
    ensures var q := Edits(ops, keys, values);
            OpTypes(q) == TypeBytes(ops) && EditKeys(q) == keys && EditValues(q) == values
  {
  }

  lemma QueueRead(fmt: Format, page: Slice, at: nat, edits: nat, bs: seq<Entry>)
    requires at <= |page| && ParseQueue(fmt, page, at, edits, bs).Got?
    ensures var r := ParseQueue(fmt, page, at, edits, bs);
            && r.offset == |page| && r.value.Internal? && r.value.branches == bs && |r.value.queue| == edits
            && page[at..] == Concat(OpTypes(r.value.queue)) + Concat(EditKeys(r.value.queue))
              + Concat(EditValues(r.value.queue))
  {
    hide ReadColumn, ReadOps, ReadValues, Concat, OpTypes, EditKeys, EditValues;
    var ops := ReadOps(page, at, edits);
    var ks := ReadColumn(fmt.keySize, page, ops.offset, edits);
    var vs := ReadValues(fmt, page, ks.offset, ops.value);
    OpsRead(page, at, edits);
    ColumnRead(fmt.keySize, page, ops.offset, edits);
    ValuesRead(fmt, page, ks.offset, ops.value);
    EditsRead(ops.value, ks.value, vs.value);
    Adjoin(page, at, ops.offset, ks.offset);
    Adjoin(page, at, ks.offset, |page|);
  }

  lemma BranchesRead(seps: seq<Slice>, ids: seq<Slice>, counts: seq<Slice>)
    requires |ids| == |counts| == |seps| + 1 && forall i :: 0 <= i < |counts| ==> |counts[i]| == 4
    ensures var bs := Branches(seps, ids, counts); Separators(bs) == seps && Ids(bs) == ids && Counts(bs) == counts
  {
    hide Little, Number;
    var bs := Branches(seps, ids, counts);
    forall i | 0 <= i < |counts|
      ensures Counts(bs)[i] == counts[i]
    {
      LittleBack(counts[i]);
    }
  }

  lemma InternalRead(fmt: Format, page: Slice, count: nat)
    requires |page| >= 6 && count > 0 && ParseInternal(fmt, page, count).Got?
    ensures var r := ParseInternal(fmt, page, count);
            && r.offset == |page| && r.value.Internal? && |r.value.branches| == count
            && page[6..] == Little(|r.value.queue|, 4)
                 + Concat(Separators(r.value.branches)) + Concat(Ids(r.value.branches))
                   + Concat(Counts(r.value.branches))
                 + Concat(OpTypes(r.value.queue)) + Concat(EditKeys(r.value.queue)) + Concat(EditValues(r.value.queue))
  {
    hide ReadColumn, ReadFixed, ParseQueue, Branches, Little, Number, Concat, OpTypes, EditKeys, EditValues,
      Separators, Ids, Counts;
    var edits := Number(page[6..10]);
    var ss := ReadColumn(fmt.keySize, page, 10, count - 1);
    var ids := ReadFixed(page, ss.offset, ID_SIZE, count);
    var cs := ReadFixed(page, ids.offset, 4, count);
    LittleBack(page[6..10]);
    ColumnRead(fmt.keySize, page, 10, count - 1);
    FixedRead(page, ss.offset, ID_SIZE, count);
    FixedRead(page, ids.offset, 4, count);
    var bs := Branches(ss.value, ids.value, cs.value);
    BranchesRead(ss.value, ids.value, cs.value);
    QueueRead(fmt, page, cs.offset, edits, bs);
    var q := ParseInternal(fmt, page, count).value.queue;
    Adjoin(page, 6, 10, ss.offset);
    Adjoin(page, 6, ss.offset, ids.offset);
    Adjoin(page, 6, ids.offset, cs.offset);
    Adjoin(page, 6, cs.offset, |page|);
    RegroupThree(page[6..cs.offset], Concat(OpTypes(q)), Concat(EditKeys(q)), Concat(EditValues(q)));
  }

  lemma RegroupThree(front: Slice, a: Slice, b: Slice, c: Slice)
    ensures front + (a + b + c) == front + a + b + c
  {
    Regroup(front, a + b, c);
    Regroup(front, a, b);
  }

  /** The page of an internal node that says it has no branch. */
  predicate NoBranches(page: Slice)
    requires |page| >= 6
  {
    Number(page[0..2]) == INTERNAL && Number(page[2..6]) == 0
  }

  /**
   * No two pages read the same: whatever page can be parsed is the page of
   * the node it gives, and all of it was read.  The one exception is an
   * internal page that says it has no branch; the parser gives it one.
   */
  lemma PageCanonical(fmt: Format, page: Slice)
    requires Parse(fmt, page).Got?
    ensures Parse(fmt, page).offset == |page|
    ensures Bytes(Parse(fmt, page).value) == page <==> !NoBranches(page)
  {
    hide ParseLeaf, ParseOverflow, ParseInternal, Number, Little, RefBytes, Concat;
    var flags, count := Number(page[0..2]), Number(page[2..6]);
    var n := Parse(fmt, page).value;
    HeaderRead(page);
    assert page == page[..6] + page[6..];
    if flags == LEAF {
      LeafRead(fmt, page, count);
      RegroupThree(page[..6], Concat(Keys(n.pairs)), Concat(Values(n.pairs)), RefBytes(n.overflow));
    } else if flags == OVERFLOW {
      OverflowRead(fmt, page, count);
      Regroup(page[..6], Concat(n.values), RefBytes(n.next));
    } else if count > 0 {
      InternalRead(fmt, page, count);
      Reassembled(page, n);
    } else {
      NoBranchRead(fmt, page);
    }
  }

  lemma Reassembled(page: Slice, n: PageNode)
    requires |page| >= 6 && n.Internal? && page[..6] == Little(INTERNAL, 2) + Little(|n.branches|, 4)
    requires page[6..] == Little(|n.queue|, 4)
                 + Concat(Separators(n.branches)) + Concat(Ids(n.branches)) + Concat(Counts(n.branches))
                 + Concat(OpTypes(n.queue)) + Concat(EditKeys(n.queue)) + Concat(EditValues(n.queue))
    ensures Bytes(n) == page
  {
    hide Little, Concat, OpTypes, EditKeys, EditValues, Separators, Ids, Counts;
    var a, b, c, d := Little(|n.queue|, 4), Concat(Separators(n.branches)), Concat(Ids(n.branches)),
      Concat(Counts(n.branches));
    var e, f, g := Concat(OpTypes(n.queue)), Concat(EditKeys(n.queue)), Concat(EditValues(n.queue));
    assert page == page[..6] + page[6..];
    RegroupTail(page[..6], a, b, c, d, e, f, g);
    RegroupTail([], a, b, c, d, e, f, g);
    assert [] + a == a && [] + (a + (b + (c + (d + (e + (f + g)))))) == a + (b + (c + (d + (e + (f + g)))));
  }

  lemma NoBranchRead(fmt: Format, page: Slice)
    requires |page| >= 6 && NoBranches(page) && ParseInternal(fmt, page, 0).Got?
    ensures var r := ParseInternal(fmt, page, 0); r.offset == |page| && Bytes(r.value) != page
  {
    hide ParseQueue, Little, Concat;
    var bs := [Entry([], Ref(0, Little(0, ID_SIZE)))];
    QueueRead(fmt, page, 10, Number(page[6..10]), bs);
    var n := ParseInternal(fmt, page, 0).value;
    if Bytes(n) == page {
      assert page[2..6] == Little(1, 4);
      Pow4();
      NumberBack(1, 4);
    }
  }
}
