/** Pages written and read step by step: an offset moves through a buffer of bytes. */
module Serializing {
  import opened Types
  import opened Codec

  // ---------------------------------------------------------------- reading

  /** A reading that goes on after some items have been taken. */
  function Behind<T>(xs: seq<T>, r: Read<seq<T>>): Read<seq<T>> {
    if r.Got? then Got(xs + r.value, r.offset) else r
  }

  lemma BehindNone<T>(r: Read<seq<T>>)
    ensures Behind([], r) == r
  {
    if r.Got? {
      assert [] + r.value == r.value;
    }
  }

  lemma ColumnTurn(size: Slice -> nat, page: Slice, at: nat, count: nat, xs: seq<Slice>)
    requires count > 0
    ensures var x := ReadSlice(size, page, at);
            Behind(xs, ReadColumn(size, page, at, count))
              == if x.Got? then Behind(xs + [x.value], ReadColumn(size, page, x.offset, count - 1))
                else x.PropagateFailure()
  {
    var x := ReadSlice(size, page, at);
    if x.Got? && ReadColumn(size, page, x.offset, count - 1).Got? {
      Regroup(xs, [x.value], ReadColumn(size, page, x.offset, count - 1).value);
    }
  }

  lemma FixedTurn(page: Slice, at: nat, w: nat, count: nat, xs: seq<Slice>)
    requires count > 0
    ensures var x := ReadBytes(page, at, w);
            Behind(xs, ReadFixed(page, at, w, count))
              == if x.Got? then Behind(xs + [x.value], ReadFixed(page, x.offset, w, count - 1))
                else x.PropagateFailure()
  {
    var x := ReadBytes(page, at, w);
    if x.Got? && ReadFixed(page, x.offset, w, count - 1).Got? {
      Regroup(xs, [x.value], ReadFixed(page, x.offset, w, count - 1).value);
    }
  }

  lemma OpsTurn(page: Slice, at: nat, count: nat, xs: seq<Op>)
    requires count > 0
    ensures Behind(xs, ReadOps(page, at, count))
              == if at >= |page| then Throws
                 else if OpOf(page[at]).None? then Wild
                 else Behind(xs + [OpOf(page[at]).value], ReadOps(page, at + 1, count - 1))
  {
    if at < |page| && OpOf(page[at]).Some? && ReadOps(page, at + 1, count - 1).Got? {
      Regroup(xs, [OpOf(page[at]).value], ReadOps(page, at + 1, count - 1).value);
    }
  }

  lemma ValuesTurn(fmt: Format, page: Slice, at: nat, ops: seq<Op>, i: nat, xs: seq<Slice>)
    requires i < |ops|
    ensures var x := ReadSlice(fmt.valueSize, page, at);
            Behind(xs, ReadValues(fmt, page, at, ops[i..]))
              == if ops[i] == REMOVE_KEY then Behind(xs + [[]], ReadValues(fmt, page, at, ops[i + 1..]))
                 else if x.Got? then Behind(xs + [x.value], ReadValues(fmt, page, x.offset, ops[i + 1..]))
                 else x.PropagateFailure()
  {
    var x := ReadSlice(fmt.valueSize, page, at);
    assert ops[i..][1..] == ops[i + 1..];
    if ops[i] == REMOVE_KEY {
      var r := ReadValues(fmt, page, at, ops[i + 1..]);
      if r.Got? { Regroup(xs, [[]], r.value); }
    } else if x.Got? {
      var r := ReadValues(fmt, page, x.offset, ops[i + 1..]);
      if r.Got? { Regroup(xs, [x.value], r.value); }
    }
  }

  class NodeParser {
    const input: Slice
    const fmt: Format
    var offset: nat

    constructor (input: Slice, fmt: Format)
      ensures this.input == input && this.fmt == fmt && offset == 6
    {
      this.input, this.fmt, offset := input, fmt, 6;
    }

    function KeyCount(): nat
      requires |input| >= 6
    {
      Number(input[2..6])
    }

    method Piece(size: Slice -> nat) returns (r: Read<Slice>)
      modifies this`offset
      ensures r == ReadSlice(size, input, old(offset)) && (r.Got? ==> offset == r.offset)
    {
      if offset >= |input| {
        return Throws;
      }
      var n := size(input[offset..]);
      if offset + n > |input| {
        return Throws;
      }
      r := Got(input[offset..offset + n], offset + n);
      offset := offset + n;
    }

    method Fixed(w: nat) returns (r: Read<Slice>)
      modifies this`offset
      ensures r == ReadBytes(input, old(offset), w) && (r.Got? ==> offset == r.offset)
    {
      if offset >= |input| {
        return Throws;
      }
      if offset + w > |input| {
        return Wild;
      }
      r := Got(input[offset..offset + w], offset + w);
      offset := offset + w;
    }

    method ParseRef() returns (r: Read<Ref>)
      modifies this`offset
      ensures r == ReadRef(input, old(offset)) && (r.Got? ==> offset == r.offset)
    {
      var count :- Fixed(4);
      var id :- Fixed(ID_SIZE);
      r := Got(Ref(Number(count.0), id.0), offset);
    }

    method ParseLeafNode() returns (r: Read<PageNode>)
      requires |input| >= 6 && offset == 6
      modifies this`offset
      ensures r == ParseLeaf(fmt, input, KeyCount())
    {
      hide ReadColumn, ReadSlice, ReadRef;
      var count := KeyCount();
      var items: seq<(Slice, Slice)> := [];
      ghost var keys := ReadColumn(fmt.keySize, input, 6, count);
      BehindNone(keys);
      for i := 0 to count
        invariant |items| == i && forall j :: 0 <= j < i ==> items[j].1 == []
        invariant keys == Behind(Keys(items), ReadColumn(fmt.keySize, input, offset, count - i))
      {
        ColumnTurn(fmt.keySize, input, offset, count - i, Keys(items));
        var key :- Piece(fmt.keySize);
        ghost var before := Keys(items);
        items := items + [(key.0, [])];
        assert Keys(items) == before + [key.0];
      }
      NoColumn(fmt.keySize, input, offset, Keys(items));
      ghost var vs: seq<Slice> := [];
      ghost var values := ReadColumn(fmt.valueSize, input, offset, count);
      BehindNone(values);
      for i := 0 to count
        invariant |items| == count && |vs| == i && Keys(items) == keys.value
        invariant forall j :: 0 <= j < i ==> items[j].1 == vs[j]
        invariant values == Behind(vs, ReadColumn(fmt.valueSize, input, offset, count - i))
      {
        ColumnTurn(fmt.valueSize, input, offset, count - i, vs);
        var value :- Piece(fmt.valueSize);
        ghost var before := items;
        items := items[i := (items[i].0, value.0)];
        assert Keys(items) == Keys(before);
        vs := vs + [value.0];
      }
      NoColumn(fmt.valueSize, input, offset, vs);
      PairsAre(items, keys.value, vs);
      var overflow :- ParseRef();
      r := AtEnd(PageNode.Leaf(items, overflow.0), input, offset);
    }

    method ParseOverflowNode() returns (r: Read<PageNode>)
      requires |input| >= 6 && offset == 6
      modifies this`offset
      ensures r == ParseOverflow(fmt, input, KeyCount())
    {
      hide ReadColumn, ReadSlice, ReadRef;
      var values: seq<Slice> := [];
      BehindNone(ReadColumn(fmt.valueSize, input, 6, KeyCount()));
      for i := 0 to KeyCount()
        invariant |values| == i
        invariant ReadColumn(fmt.valueSize, input, 6, KeyCount())
               == Behind(values, ReadColumn(fmt.valueSize, input, offset, KeyCount() - i))
      {
        ColumnTurn(fmt.valueSize, input, offset, KeyCount() - i, values);
        var value :- Piece(fmt.valueSize);
        values := values + [value.0];
      }
      NoColumn(fmt.valueSize, input, offset, values);
      var next :- ParseRef();
      r := AtEnd(PageNode.Overflow(values, next.0), input, offset);
    }

    /** The branches, with their separators from the second one on. */
    method ParseSeparators(count: nat) returns (r: Read<seq<Entry>>, ghost seps: seq<Slice>)
      requires count > 0
      modifies this`offset
      ensures r.Got? ==> |r.value| == count && Keyed(r.value, seps) && offset == r.offset
      ensures ReadColumn(fmt.keySize, input, old(offset), count - 1) == if r.Got? then Got(seps, offset)
              else r.PropagateFailure()
    {
      hide ReadColumn, ReadSlice;
      var branches := [Entry([], Ref(0, Little(0, ID_SIZE)))];
      seps := [];
      ghost var read := ReadColumn(fmt.keySize, input, offset, count - 1);
      BehindNone(read);
      for i := 1 to count
        invariant |branches| == i && Keyed(branches, seps)
        invariant read == Behind(seps, ReadColumn(fmt.keySize, input, offset, count - i))
      {
        ColumnTurn(fmt.keySize, input, offset, count - i, seps);
        var key := Piece(fmt.keySize);
        if key.IsFailure() {
          return key.PropagateFailure(), seps;
        }
        branches := branches + [Entry(key.value, Ref(0, Little(0, ID_SIZE)))];
        seps := seps + [key.value];
      }
      NoColumn(fmt.keySize, input, offset, seps);
      r := Got(branches, offset);
    }

    /** Fills in the ids. */
    method ParseIds(given: seq<Entry>) returns (r: Read<seq<Entry>>, ghost ids: seq<Slice>)
      modifies this`offset
      ensures r.Got? ==> |r.value| == |ids| == |given| && offset == r.offset
      ensures r.Got? ==> forall j :: 0 <= j < |given| ==> r.value[j] == given[j].(ref := given[j].ref.(id := ids[j]))
      ensures ReadFixed(input, old(offset), ID_SIZE, |given|) == if r.Got? then Got(ids, offset)
              else r.PropagateFailure()
    {
      hide ReadFixed, ReadBytes;
      var branches := given;
      ids := [];
      ghost var read := ReadFixed(input, offset, ID_SIZE, |given|);
      BehindNone(read);
      for i := 0 to |given|
        invariant |branches| == |given| && |ids| == i
        invariant forall j :: i <= j < |given| ==> branches[j] == given[j]
        invariant forall j :: 0 <= j < i ==> branches[j] == given[j].(ref := given[j].ref.(id := ids[j]))
        invariant read == Behind(ids, ReadFixed(input, offset, ID_SIZE, |given| - i))
      {
        FixedTurn(input, offset, ID_SIZE, |given| - i, ids);
        var id := Fixed(ID_SIZE);
        if id.IsFailure() {
          return id.PropagateFailure(), ids;
        }
        branches := branches[i := branches[i].(ref := branches[i].ref.(id := id.value))];
        ids := ids + [id.value];
      }
      NoFixed(input, offset, ID_SIZE, ids);
      r := Got(branches, offset);
    }

    /** Fills in the item counts. */
    method ParseCounts(given: seq<Entry>) returns (r: Read<seq<Entry>>, ghost counts: seq<Slice>)
      modifies this`offset
      ensures r.Got? ==> |r.value| == |counts| == |given| && offset == r.offset
      ensures r.Got? ==> forall j :: 0 <= j < |given| ==>
              r.value[j] == given[j].(ref := given[j].ref.(count := Number(counts[j])))
      ensures ReadFixed(input, old(offset), 4, |given|) == if r.Got? then Got(counts, offset) else r.PropagateFailure()
    {
      hide ReadFixed, ReadBytes, Number;
      var branches := given;
      counts := [];
      ghost var read := ReadFixed(input, offset, 4, |given|);
      BehindNone(read);
      for i := 0 to |given|
        invariant |branches| == |given| && |counts| == i
        invariant forall j :: i <= j < |given| ==> branches[j] == given[j]
        invariant forall j :: 0 <= j < i ==> branches[j] == given[j].(ref := given[j].ref.(count := Number(counts[j])))
        invariant read == Behind(counts, ReadFixed(input, offset, 4, |given| - i))
      {
        FixedTurn(input, offset, 4, |given| - i, counts);
        var count := Fixed(4);
        if count.IsFailure() {
          return count.PropagateFailure(), counts;
        }
        branches := branches[i := branches[i].(ref := branches[i].ref.(count := Number(count.value)))];
        counts := counts + [count.value];
      }
      NoFixed(input, offset, 4, counts);
      r := Got(branches, offset);
    }

    /** The branches: separators from the second on, then all ids, then all counts. */
    method ParseBranches() returns (r: Read<seq<Entry>>)
      requires |input| >= 6 && offset == 10
      modifies this`offset
      ensures r == ReadBranches(fmt, input, KeyCount()) && (r.Got? ==> offset == r.offset)
    {
      hide ReadColumn, ReadFixed, Number;
      var count := KeyCount();
      if count == 0 {
        return Got([Entry([], Ref(0, Little(0, ID_SIZE)))], offset);
      }
      ghost var seps, ids, counts;
      var keyed, named;
      keyed, seps := ParseSeparators(count);
      if keyed.IsFailure() {
        return keyed;
      }
      named, ids := ParseIds(keyed.value);
      if named.IsFailure() {
        return named;
      }
      r, counts := ParseCounts(named.value);
      if r.Got? {
        BranchesAre(r.value, seps, ids, counts);
      }
    }

    /** The edits: all types, all keys, and the values of those that have one. */
    method ParseEdits(editCount: nat) returns (r: Read<seq<Queued>>)
      modifies this`offset
      ensures r == ReadEdits(fmt, input, old(offset), editCount) && (r.Got? ==> offset == r.offset)
    {
      hide ReadColumn, ReadOps, ReadValues, ReadSlice;
      var editTypes: seq<Op>, editKeys: seq<Slice>, queue: seq<Queued> := [], [], [];
      ghost var ops := ReadOps(input, offset, editCount);
      BehindNone(ops);
      for i := 0 to editCount
        invariant |editTypes| == i
        invariant ops == Behind(editTypes, ReadOps(input, offset, editCount - i))
      {
        OpsTurn(input, offset, editCount - i, editTypes);
        if offset >= |input| {
          return Throws;
        }
        if OpOf(input[offset]).None? {
          return Wild;
        }
        editTypes := editTypes + [OpOf(input[offset]).value];
        offset := offset + 1;
      }
      NoOps(input, offset, editTypes);
      ghost var keys := ReadColumn(fmt.keySize, input, offset, editCount);
      BehindNone(keys);
      for i := 0 to editCount
        invariant |editKeys| == i
        invariant keys == Behind(editKeys, ReadColumn(fmt.keySize, input, offset, editCount - i))
      {
        ColumnTurn(fmt.keySize, input, offset, editCount - i, editKeys);
        var key :- Piece(fmt.keySize);
        editKeys := editKeys + [key.0];
      }
      NoColumn(fmt.keySize, input, offset, editKeys);
      ghost var vs: seq<Slice> := [];
      ghost var values := ReadValues(fmt, input, offset, editTypes);
      BehindNone(values);
      assert editTypes[0..] == editTypes;
      for i := 0 to editCount
        invariant |vs| == i && queue == Edits(editTypes[..i], editKeys[..i], vs)
        invariant values == Behind(vs, ReadValues(fmt, input, offset, editTypes[i..]))
      {
        ValuesTurn(fmt, input, offset, editTypes, i, vs);
        var value: Slice := [];
        if editTypes[i] != REMOVE_KEY {
          var found :- Piece(fmt.valueSize);
          value := found.0;
        }
        EditsGrow(editTypes, editKeys, vs, value);
        queue := queue + [Queued(editTypes[i], editKeys[i], value, false)];
        vs := vs + [value];
      }
      NoValuesLeft(fmt, input, offset, editTypes, vs);
      assert editTypes[..editCount] == editTypes && editKeys[..editCount] == editKeys;
      r := Got(queue, offset);
    }

    method ParseInternalNode() returns (r: Read<PageNode>)
      requires |input| >= 6 && offset == 6
      modifies this`offset
      ensures r == ParseInternal(fmt, input, KeyCount())
    {
      hide ReadBranches, ReadEdits, Number;
      InternalReads(fmt, input, KeyCount());
      if offset + 4 > |input| {
        return Wild;
      }
      var editCount := Number(input[offset..offset + 4]);
      offset := offset + 4;
      var branches :- ParseBranches();
      var queue :- ParseEdits(editCount);
      r := AtEnd(PageNode.Internal(branches.0, queue.0), input, offset);
    }
  }

  // ---------------------------------------------------------------- parts of an internal page

  /** The separators of the branches, except for the first one, which is empty. */
  ghost predicate Keyed(bs: seq<Entry>, seps: seq<Slice>) {
    |bs| == |seps| + 1 && forall j :: 0 <= j < |bs| ==> bs[j].minKey == if j == 0 then [] else seps[j - 1]
  }

  function ReadBranches(fmt: Format, page: Slice, count: nat): (r: Read<seq<Entry>>)
  {
    if count == 0 then Got([Entry([], Ref(0, Little(0, ID_SIZE)))], 10)
    else
      var seps :- ReadColumn(fmt.keySize, page, 10, count - 1);
      var ids :- ReadFixed(page, seps.1, ID_SIZE, count);
      var counts :- ReadFixed(page, ids.1, 4, count);
      Got(Branches(seps.0, ids.0, counts.0), counts.1)
  }

  function ReadEdits(fmt: Format, page: Slice, at: nat, edits: nat): Read<seq<Queued>> {
    var ops :- ReadOps(page, at, edits);
    var keys :- ReadColumn(fmt.keySize, page, ops.1, edits);
    var values :- ReadValues(fmt, page, keys.1, ops.0);
    Got(Edits(ops.0, keys.0, values.0), values.1)
  }

  lemma InternalReads(fmt: Format, page: Slice, count: nat)
    ensures ParseInternal(fmt, page, count) ==
            if 10 > |page| then Wild
            else
              var bs := ReadBranches(fmt, page, count);
              if !bs.Got? then bs.PropagateFailure()
              else
                var q := ReadEdits(fmt, page, bs.offset, Number(page[6..10]));
                if !q.Got? then q.PropagateFailure() else AtEnd(PageNode.Internal(bs.value, q.value), page, q.offset)
  {
    hide ReadColumn, ReadFixed, ReadOps, ReadValues, Number, Branches, Edits;
  }

  lemma NoColumn(size: Slice -> nat, page: Slice, at: nat, xs: seq<Slice>)
    ensures Behind(xs, ReadColumn(size, page, at, 0)) == Got(xs, at)
  {
    assert xs + [] == xs;
  }

  lemma NoFixed(page: Slice, at: nat, w: nat, xs: seq<Slice>)
    ensures Behind(xs, ReadFixed(page, at, w, 0)) == Got(xs, at)
  {
    assert xs + [] == xs;
  }

  lemma NoOps(page: Slice, at: nat, xs: seq<Op>)
    ensures Behind(xs, ReadOps(page, at, 0)) == Got(xs, at)
  {
    assert xs + [] == xs;
  }

  lemma NoValuesLeft(fmt: Format, page: Slice, at: nat, ops: seq<Op>, xs: seq<Slice>)
    ensures Behind(xs, ReadValues(fmt, page, at, ops[|ops|..])) == Got(xs, at)
  {
    assert xs + [] == xs;
  }

  lemma PairsAre(items: seq<(Slice, Slice)>, keys: seq<Slice>, values: seq<Slice>)
    requires |items| == |keys| == |values| && Keys(items) == keys
    requires forall i :: 0 <= i < |items| ==> items[i].1 == values[i]
    ensures items == Pairs(keys, values)
  {
    forall i | 0 <= i < |items|
      ensures items[i] == (keys[i], values[i])
    {
      assert Keys(items)[i] == keys[i];
    }
  }

  lemma BranchesAre(bs: seq<Entry>, seps: seq<Slice>, ids: seq<Slice>, counts: seq<Slice>)
    requires |bs| == |ids| == |counts| == |seps| + 1
    requires Keyed(bs, seps)
    requires forall j :: 0 <= j < |bs| ==> bs[j].ref.id == ids[j]
    requires forall j :: 0 <= j < |bs| ==> bs[j].ref.count == Number(counts[j])
    ensures bs == Branches(seps, ids, counts)
  {
    hide Number;
    var r := Branches(seps, ids, counts);
    forall j | 0 <= j < |bs|
      ensures bs[j] == r[j]
    {
    }
  }

  lemma EditsGrow(ops: seq<Op>, keys: seq<Slice>, vs: seq<Slice>, v: Slice)
    requires |vs| < |ops| == |keys|
    ensures var i := |vs|;
            Edits(ops[..i + 1], keys[..i + 1], vs + [v]) == Edits(ops[..i], keys[..i], vs)
              + [Queued(ops[i], keys[i], v, false)]
  {
  }

  /** ParseNode: every read is the one the page calls for, in order. */
  method ParseNode(input: Slice, fmt: Format) returns (r: Read<PageNode>)
    ensures r == Parse(fmt, input)
  {
    hide ParseLeaf, ParseInternal, ParseOverflow, Number;
    if |input| < 6 {
      return Wild;
    }
    var parser := new NodeParser(input, fmt);
    var flags := Number(input[0..2]);
    if flags == INTERNAL {
      r := parser.ParseInternalNode();
    } else if flags == LEAF {
      r := parser.ParseLeafNode();
    } else if flags == OVERFLOW {
      r := parser.ParseOverflowNode();
    } else {
      r := Throws;
    }
  }

  // ---------------------------------------------------------------- sizes

  lemma LengthsNext(xs: seq<Slice>, i: nat)
    requires i < |xs|
    ensures Lengths(xs[..i + 1]) == Lengths(xs[..i]) + |xs[i]|
  {
    LengthsMore(xs[..i], xs[i]);
    assert xs[..i + 1] == xs[..i] + [xs[i]];
  }

  lemma {:induction false} LengthsMore(xs: seq<Slice>, x: Slice)
    ensures Lengths(xs + [x]) == Lengths(xs) + |x|
  {
    if |xs| == 0 {
      assert [x][1..] == [];
    } else {
      assert (xs + [x])[1..] == xs[1..] + [x];
      LengthsMore(xs[1..], x);
    }
  }

  method LeafSize(pairs: seq<(Slice, Slice)>) returns (size: nat)
    ensures size == 6 + 24 + Lengths(Keys(pairs)) + Lengths(Values(pairs))
  {
    hide Lengths, Keys, Values;
    size := 6 + 24;
    NoLengths();
    ghost var ks, vs := Keys(pairs), Values(pairs);
    for i := 0 to |pairs|
      invariant size == 6 + 24 + Lengths(ks[..i]) + Lengths(vs[..i])
    {
      LengthsNext(ks, i);
      LengthsNext(vs, i);
      PairParts(pairs, i);
      size := size + |pairs[i].0| + |pairs[i].1|;
    }
    assert ks[..|ks|] == ks && vs[..|vs|] == vs;
  }

  lemma NoLengths()
    ensures forall xs: seq<Slice> :: Lengths(xs[..0]) == 0
    ensures forall q: seq<Queued> :: QueueSize(q[..0]) == 0
  {
  }

  lemma PairParts(ps: seq<(Slice, Slice)>, i: nat)
    requires i < |ps|
    ensures Keys(ps)[i] == ps[i].0 && Values(ps)[i] == ps[i].1
  {
  }

  method ValuesSize(values: seq<Slice>) returns (size: nat)
    ensures size == 6 + 24 + Lengths(values)
  {
    hide Lengths;
    size := 6 + 24;
    NoLengths();
    for i := 0 to |values|
      invariant size == 6 + 24 + Lengths(values[..i])
    {
      LengthsNext(values, i);
      size := size + |values[i]|;
    }
    assert values[..|values|] == values;
  }

  /** Adds up the branches, the first separator left out, and the queue. */
  method InternalSize(branches: seq<Entry>, queue: seq<Queued>) returns (size: nat, queueSize: nat)
    ensures size + queueSize == Size(PageNode.Internal(branches, queue))
    ensures queueSize == QueueSize(queue)
  {
    hide Lengths, Separators, QueueSize;
    size, queueSize := 6 + 4, 0;
    NoLengths();
    ghost var ss := Separators(branches);
    for i := 0 to |branches|
      invariant size == 6 + 4 + 24 * i + Lengths(ss[..if i == 0 then 0 else i - 1])
    {
      if i != 0 {
        LengthsNext(ss, i - 1);
        SeparatorIs(branches, i);
        size := size + |branches[i].minKey|;
      }
      size := size + 24;
    }
    assert ss[..|ss|] == ss;
    for i := 0 to |queue|
      invariant queueSize == QueueSize(queue[..i])
    {
      QueueSizeNext(queue, i);
      queueSize := queueSize + 1;
      queueSize := queueSize + |queue[i].key| + |queue[i].value|;
    }
    assert queue[..|queue|] == queue;
  }

  lemma SeparatorIs(bs: seq<Entry>, i: nat)
    requires 0 < i < |bs|
    ensures Separators(bs)[i - 1] == bs[i].minKey
  {
  }

  lemma QueueSizeNext(q: seq<Queued>, i: nat)
    requires i < |q|
    ensures QueueSize(q[..i + 1]) == QueueSize(q[..i]) + 1 + |q[i].key| + |q[i].value|
  {
    QueueSizeMore(q[..i], q[i]);
    assert q[..i + 1] == q[..i] + [q[i]];
  }

  lemma {:induction false} QueueSizeMore(q: seq<Queued>, e: Queued)
    ensures QueueSize(q + [e]) == QueueSize(q) + 1 + |e.key| + |e.value|
  {
    if |q| == 0 {
      assert [e][1..] == [];
    } else {
      assert (q + [e])[1..] == q[1..] + [e];
      QueueSizeMore(q[1..], e);
    }
  }

  // ---------------------------------------------------------------- writing

  /** memcpy into the page. */
  method Copy(mem: array<Byte>, offset: nat, x: Slice) returns (next: nat)
    requires offset + |x| <= mem.Length
    modifies mem
    ensures next == offset + |x| && mem[..next] == old(mem[..offset]) + x
  {
    for i := 0 to |x|
      invariant mem[..offset + i] == old(mem[..offset]) + x[..i]
    {
      mem[offset + i] := x[i];
    }
    next := offset + |x|;
  }

  /** The next item of a column has room where the column has, and goes behind what is written. */
  lemma ColumnNext(head: Slice, xs: seq<Slice>, i: nat)
    requires i < |xs|
    ensures |Concat(xs[..i])| + |xs[i]| <= |Concat(xs)|
    ensures head + Concat(xs[..i]) + xs[i] == head + Concat(xs[..i + 1])
  {
    ConcatLength(xs[..i]);
    ConcatLength(xs[..i + 1]);
    ConcatLength(xs);
    LengthsNext(xs, i);
    LengthsPrefix(xs, i + 1);
    ConcatMore(xs[..i], xs[i]);
    assert xs[..i + 1] == xs[..i] + [xs[i]];
    Regroup(head, Concat(xs[..i]), xs[i]);
  }

  lemma {:induction false} ConcatMore(xs: seq<Slice>, x: Slice)
    ensures Concat(xs + [x]) == Concat(xs) + x
  {
    if |xs| == 0 {
      assert [x][1..] == [] && xs + [x] == [x];
    } else {
      assert (xs + [x])[1..] == xs[1..] + [x];
      ConcatMore(xs[1..], x);
      Regroup(xs[0], Concat(xs[1..]), x);
    }
  }

  lemma {:induction false} LengthsPrefix(xs: seq<Slice>, i: nat)
    requires i <= |xs|
    ensures Lengths(xs[..i]) <= Lengths(xs)
  {
    if i > 0 {
      assert xs[..i][1..] == xs[1..][..i - 1];
      LengthsPrefix(xs[1..], i - 1);
    }
  }

  lemma ColumnStarts(head: Slice, xs: seq<Slice>)
    ensures head + Concat(xs[..0]) == head
    ensures xs[..|xs|] == xs
  {
  }

  method PutKeys(mem: array<Byte>, offset: nat, pairs: seq<(Slice, Slice)>) returns (next: nat)
    requires offset + |Concat(Keys(pairs))| <= mem.Length
    modifies mem
    ensures next == offset + |Concat(Keys(pairs))| && mem[..next] == old(mem[..offset]) + Concat(Keys(pairs))
  {
    hide Concat, Keys;
    next := offset;
    ghost var head, xs := mem[..offset], Keys(pairs);
    ColumnStarts(head, xs);
    for i := 0 to |pairs|
      invariant next == offset + |Concat(xs[..i])| <= mem.Length && mem[..next] == head + Concat(xs[..i])
    {
      ColumnNext(head, xs, i);
      PairParts(pairs, i);
      next := Copy(mem, next, pairs[i].0);
    }
  }

  method PutValues(mem: array<Byte>, offset: nat, pairs: seq<(Slice, Slice)>) returns (next: nat)
    requires offset + |Concat(Values(pairs))| <= mem.Length
    modifies mem
    ensures next == offset + |Concat(Values(pairs))| && mem[..next] == old(mem[..offset]) + Concat(Values(pairs))
  {
    hide Concat, Values;
    next := offset;
    ghost var head, xs := mem[..offset], Values(pairs);
    ColumnStarts(head, xs);
    for i := 0 to |pairs|
      invariant next == offset + |Concat(xs[..i])| <= mem.Length && mem[..next] == head + Concat(xs[..i])
    {
      ColumnNext(head, xs, i);
      PairParts(pairs, i);
      next := Copy(mem, next, pairs[i].1);
    }
  }

  /** The link to an overflow node: its count and its id. */
  method PutRef(mem: array<Byte>, offset: nat, ref: Ref) returns (next: nat)
    requires offset + |RefBytes(ref)| <= mem.Length
    modifies mem
    ensures next == offset + |RefBytes(ref)| && mem[..next] == old(mem[..offset]) + RefBytes(ref)
  {
    ghost var head := mem[..offset];
    next := Copy(mem, offset, Little(ref.count, 4));
    next := Copy(mem, next, ref.id);
    Regroup(head, Little(ref.count, 4), ref.id);
  }

  method PutHeader(mem: array<Byte>, flags: nat, count: nat) returns (next: nat)
    requires 6 <= mem.Length
    modifies mem
    ensures next == 6 && mem[..6] == Little(flags, 2) + Little(count, 4)
  {
    next := Copy(mem, 0, Little(flags, 2));
    assert mem[..2] == Little(flags, 2);
    next := Copy(mem, next, Little(count, 4));
  }

  method SerializeLeafNode(pairs: seq<(Slice, Slice)>, overflow: Ref) returns (mem: array<Byte>)
    requires RefOk(overflow)
    ensures fresh(mem) && mem[..] == Bytes(PageNode.Leaf(pairs, overflow))
  {
    hide Concat, Keys, Values, Little, RefBytes;
    var size := LeafSize(pairs);
    SizeExact(PageNode.Leaf(pairs, overflow));
    mem := new Byte[size](_ => 0);
    var offset := PutHeader(mem, LEAF, |pairs|);
    RefLength(overflow);
    offset := PutKeys(mem, offset, pairs);
    offset := PutValues(mem, offset, pairs);
    offset := PutRef(mem, offset, overflow);
    assert mem[..offset] == mem[..];
  }

  method SerializeOverflowNode(values: seq<Slice>, ref: Ref) returns (mem: array<Byte>)
    requires RefOk(ref)
    ensures fresh(mem) && mem[..] == Bytes(PageNode.Overflow(values, ref))
  {
    hide Concat, Little, RefBytes;
    var size := ValuesSize(values);
    SizeExact(PageNode.Overflow(values, ref));
    RefLength(ref);
    mem := new Byte[size](_ => 0);
    var offset := PutHeader(mem, OVERFLOW, |values|);
    ghost var head := mem[..offset];
    ColumnStarts(head, values);
    for i := 0 to |values|
      invariant offset == 6 + |Concat(values[..i])| <= mem.Length && mem[..offset] == head + Concat(values[..i])
    {
      ColumnNext(head, values, i);
      offset := Copy(mem, offset, values[i]);
    }
    offset := PutRef(mem, offset, ref);
    assert mem[..offset] == mem[..];
  }

  method PutSeparators(mem: array<Byte>, offset: nat, branches: seq<Entry>) returns (next: nat)
    requires offset + |Concat(Separators(branches))| <= mem.Length
    modifies mem
    ensures next == offset + |Concat(Separators(branches))|
    ensures mem[..next] == old(mem[..offset]) + Concat(Separators(branches))
  {
    hide Concat, Separators;
    next := offset;
    ghost var head, xs := mem[..offset], Separators(branches);
    ColumnStarts(head, xs);
    var first := true;
    for i := 0 to |branches|
      invariant first <==> i == 0
      invariant next == offset + |Concat(xs[..if i == 0 then 0 else i - 1])| <= mem.Length
      invariant mem[..next] == head + Concat(xs[..if i == 0 then 0 else i - 1])
    {
      if !first {
        ColumnNext(head, xs, i - 1);
        SeparatorIs(branches, i);
        next := Copy(mem, next, branches[i].minKey);
      }
      first := false;
    }
  }

  method PutIds(mem: array<Byte>, offset: nat, branches: seq<Entry>) returns (next: nat)
    requires offset + |Concat(Ids(branches))| <= mem.Length
    modifies mem
    ensures next == offset + |Concat(Ids(branches))| && mem[..next] == old(mem[..offset]) + Concat(Ids(branches))
  {
    hide Concat;
    next := offset;
    ghost var head, xs := mem[..offset], Ids(branches);
    ColumnStarts(head, xs);
    for i := 0 to |branches|
      invariant next == offset + |Concat(xs[..i])| <= mem.Length && mem[..next] == head + Concat(xs[..i])
    {
      ColumnNext(head, xs, i);
      next := Copy(mem, next, branches[i].ref.id);
    }
  }

  method PutCounts(mem: array<Byte>, offset: nat, branches: seq<Entry>) returns (next: nat)
    requires offset + |Concat(Counts(branches))| <= mem.Length
    modifies mem
    ensures next == offset + |Concat(Counts(branches))| && mem[..next] == old(mem[..offset]) + Concat(Counts(branches))
  {
    hide Concat, Little;
    next := offset;
    ghost var head, xs := mem[..offset], Counts(branches);
    ColumnStarts(head, xs);
    for i := 0 to |branches|
      invariant next == offset + |Concat(xs[..i])| <= mem.Length && mem[..next] == head + Concat(xs[..i])
    {
      ColumnNext(head, xs, i);
      next := Copy(mem, next, Little(branches[i].ref.count, 4));
    }
  }

  method PutTypes(mem: array<Byte>, offset: nat, queue: seq<Queued>) returns (next: nat)
    requires offset + |Concat(OpTypes(queue))| <= mem.Length
    modifies mem
    ensures next == offset + |Concat(OpTypes(queue))| && mem[..next] == old(mem[..offset]) + Concat(OpTypes(queue))
  {
    hide Concat;
    next := offset;
    ghost var head, xs := mem[..offset], OpTypes(queue);
    ColumnStarts(head, xs);
    for i := 0 to |queue|
      invariant next == offset + |Concat(xs[..i])| <= mem.Length && mem[..next] == head + Concat(xs[..i])
    {
      ColumnNext(head, xs, i);
      next := Copy(mem, next, [OpByte(queue[i].op)]);
    }
  }

  method PutEditKeys(mem: array<Byte>, offset: nat, queue: seq<Queued>) returns (next: nat)
    requires offset + |Concat(EditKeys(queue))| <= mem.Length
    modifies mem
    ensures next == offset + |Concat(EditKeys(queue))| && mem[..next] == old(mem[..offset]) + Concat(EditKeys(queue))
  {
    hide Concat;
    next := offset;
    ghost var head, xs := mem[..offset], EditKeys(queue);
    ColumnStarts(head, xs);
    for i := 0 to |queue|
      invariant next == offset + |Concat(xs[..i])| <= mem.Length && mem[..next] == head + Concat(xs[..i])
    {
      ColumnNext(head, xs, i);
      next := Copy(mem, next, queue[i].key);
    }
  }

  /** Removals by key are skipped. */
  method PutEditValues(mem: array<Byte>, offset: nat, queue: seq<Queued>) returns (next: nat)
    requires offset + |Concat(EditValues(queue))| <= mem.Length
    modifies mem
    ensures next == offset + |Concat(EditValues(queue))|
    ensures mem[..next] == old(mem[..offset]) + Concat(EditValues(queue))
  {
    hide Concat;
    next := offset;
    ghost var head, xs := mem[..offset], EditValues(queue);
    ColumnStarts(head, xs);
    for i := 0 to |queue|
      invariant next == offset + |Concat(xs[..i])| <= mem.Length && mem[..next] == head + Concat(xs[..i])
    {
      ColumnNext(head, xs, i);
      if queue[i].op != REMOVE_KEY {
        next := Copy(mem, next, queue[i].value);
      } else {
        Nothing(mem[..next]);
        Nothing(head);
      }
    }
  }

  lemma Nothing(a: Slice)
    ensures a + [] == a
  {
  }

  /** Serializes an internal node; complete is the assertion the code makes at the end. */
  method SerializeInternalNode(branches: seq<Entry>, queue: seq<Queued>) returns (mem: array<Byte>, complete: bool)
    requires RefsOk(PageNode.Internal(branches, queue))
    ensures fresh(mem)
    ensures complete <==> Strayless(PageNode.Internal(branches, queue))
    ensures complete ==> mem[..] == Bytes(PageNode.Internal(branches, queue))
    ensures !complete ==> Bytes(PageNode.Internal(branches, queue)) < mem[..]
  {
    hide Concat, Little, Separators, Ids, Counts, OpTypes, EditKeys, EditValues, Strayless, RefsOk;
    var size, queueSize := InternalSize(branches, queue);
    SizeExact(PageNode.Internal(branches, queue));
    mem := new Byte[size + queueSize](_ => 0);
    var offset := PutHeader(mem, INTERNAL, |branches|);
    offset := Copy(mem, offset, Little(|queue|, 4));
    offset := PutSeparators(mem, offset, branches);
    offset := PutIds(mem, offset, branches);
    offset := PutCounts(mem, offset, branches);
    offset := PutTypes(mem, offset, queue);
    offset := PutEditKeys(mem, offset, queue);
    offset := PutEditValues(mem, offset, queue);
    complete := offset == mem.Length;
    assert mem[..mem.Length] == mem[..];
  }

  /** SerializeNode: the page holds exactly the bytes of the node, unless a removal by key carries a value. */
  method SerializeNode(n: PageNode) returns (mem: array<Byte>, complete: bool)
    requires RefsOk(n)
    ensures fresh(mem) && (complete <==> Strayless(n))
    ensures complete ==> mem[..] == Bytes(n)
  {
    match n
    case Leaf(ps, o) =>
      mem := SerializeLeafNode(ps, o);
      complete := true;
    case Internal(bs, q) =>
      mem, complete := SerializeInternalNode(bs, q);
    case Overflow(vs, o) =>
      mem := SerializeOverflowNode(vs, o);
      complete := true;
  }

  /** Written and read again by the code itself: the node without its first separator and its flags. */
  method WriteAndRead(fmt: Format, n: PageNode) returns (r: Read<PageNode>)
    requires Storable(fmt, n)
    ensures r.Got? && r.value == Stripped(n)
  {
    hide Storable, RefsOk, Strayless, Bytes, Parse, Stripped;
    StorableRefs(fmt, n);
    RoundTrip(fmt, n);
    var mem, complete := SerializeNode(n);
    r := ParseNode(mem[..], fmt);
  }
}
