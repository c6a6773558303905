/** The leaf node as an object: sorted pairs edited in place, with the running size of their bytes. */
module LeafNodes {
  import opened Types
  import opened Merging
  import opened Splitting
  import Leaves
  import Overflow

  class LeafNode {
    var pairs: seq<Pair>
    var overflow: Overflow.Chain
    var elementsSize: int
    const cfg: Config

    /** The running size is the size of the pairs. */
    ghost predicate Exact()
      reads this
    {
      elementsSize == PairsSize(cfg, pairs)
    }

    function Data(): Leaves.LeafData
      reads this
    {
      Leaves.LeafData(pairs, overflow)
    }

    /** Takes over pairs and chain, and adds up the size. */
    constructor (cfg: Config, pairs: seq<Pair>, overflow: Overflow.Chain)
      ensures Data() == Leaves.LeafData(pairs, overflow) && this.cfg == cfg && Exact()
    {
      this.cfg, this.pairs, this.overflow := cfg, pairs, overflow;
      this.elementsSize := 0;
      new;
      CalcSize();
    }

    method CalcSize()
      requires elementsSize == 0
      modifies this`elementsSize
      ensures Exact()
    {
      assert pairs[..0] == [];
      for i := 0 to |pairs|
        invariant elementsSize == PairsSize(cfg, pairs[..i])
      {
        elementsSize := elementsSize + PairSize(cfg, pairs[i]);
        PairsSizeNext(cfg, pairs, i);
      }
      assert pairs[..|pairs|] == pairs;
    }

    function ItemCount(): nat
      reads this
    {
      Overflow.Count(overflow) + |pairs|
    }

    method Insert(item: Pair)
      requires Exact()
      modifies this`pairs, this`elementsSize
      ensures pairs == Leaves.InsertPair(old(pairs), item) && Exact()
    {
      var i := UpperBound(pairs, item.key);
      SizeInserted(cfg, pairs, i, item);
      pairs := pairs[..i] + [item] + pairs[i..];
      elementsSize := elementsSize + PairSize(cfg, item);
    }

    method Erase(i: nat)
      requires i < |pairs| && Exact()
      modifies this`pairs, this`elementsSize
      ensures pairs == old(pairs)[..i] + old(pairs)[i + 1..] && Exact()
    {
      SizeErased(cfg, pairs, i);
      elementsSize := elementsSize - PairSize(cfg, pairs[i]);
      pairs := pairs[..i] + pairs[i + 1..];
    }

    method UpdateValue(i: nat, value: Value)
      requires i < |pairs| && Exact()
      modifies this`pairs, this`elementsSize
      ensures pairs == old(pairs)[i := Pair(old(pairs)[i].key, value)] && Exact()
    {
      SizeUpdated(cfg, pairs, i, value);
      elementsSize := elementsSize - |pairs[i].value|;
      elementsSize := elementsSize + |value|;
      pairs := pairs[i := Pair(pairs[i].key, value)];
    }

    method Find(key: Key) returns (i: nat)
      ensures i == Leaves.Find(pairs, key)
    {
      i := LowerBound(pairs, key);
      if i < |pairs| && key == pairs[i].key { return; }
      i := |pairs|;
    }

    method FindRange(key: Key) returns (begin: nat, end: nat)
      ensures begin == LowerBound(pairs, key) && end == UpperBound(pairs, key)
    {
      begin, end := LowerBound(pairs, key), UpperBound(pairs, key);
    }

    /** applyAll: the pairs become the merge of the pairs and the edits, and the size is exact. */
    method ApplyAll(edits: seq<Edit>)
      modifies this`pairs, this`elementsSize
      ensures pairs == Merge(old(pairs), edits) && Exact()
    {
      hide MergeFrom, LastHit, PairsSize;
      var copy, edit := 0, 0;
      var updated: seq<Pair>, newSize := [], 0;
      NoSize(cfg);
      assert pairs[0..] == pairs && edits[0..] == edits;
      while copy < |pairs| || edit < |edits|
        invariant copy <= |pairs| && edit <= |edits| && pairs == old(pairs)
        invariant MergeFrom(updated, pairs[copy..], edits[edit..]) == Merge(pairs, edits)
        invariant newSize == PairsSize(cfg, updated)
        decreases |pairs| - copy + |edits| - edit
      {
        MergeTurn(updated, pairs, copy, edits, edit);
        if edit < |edits| && edits[edit].op != INSERT && (copy == |pairs| || edits[edit].key < pairs[copy].key) {
          updated, newSize := ModifyEnd(updated, newSize, edits[edit]);
          edit := edit + 1;
        } else if edit < |edits| && edits[edit].op == INSERT &&
          (copy == |pairs| || edits[edit].key <= pairs[copy].key) {
          SizePushed(cfg, updated, Pair(edits[edit].key, edits[edit].value));
          updated := updated + [Pair(edits[edit].key, edits[edit].value)];
          newSize := newSize + cfg.keySize(edits[edit].key) + |edits[edit].value|;
          edit := edit + 1;
        } else if copy < |pairs| {
          SizePushed(cfg, updated, pairs[copy]);
          updated := updated + [pairs[copy]];
          newSize := newSize + PairSize(cfg, pairs[copy]);
          copy := copy + 1;
        }
      }
      MergeDone(updated, pairs, edits);
      pairs := updated;
      elementsSize := newSize;
    }

    /** An upsert or a removal, looked for from the end of what has been merged. */
    method ModifyEnd(merged: seq<Pair>, size: int, e: Edit) returns (updated: seq<Pair>, newSize: int)
      requires size == PairsSize(cfg, merged) && e.op != INSERT
      ensures updated == Modify(merged, e) && newSize == PairsSize(cfg, updated)
    {
      hide PairsSize;
      updated, newSize := merged, size;
      var i := |updated|;
      while i > 0 && updated[i - 1].key == e.key
        invariant 0 <= i <= |updated| && updated == merged && newSize == size
        invariant LastHit(merged, e, i) == LastHit(merged, e, |merged|)
      {
        if e.op == UPSERT {
          SizeUpdated(cfg, updated, i - 1, e.value);
          newSize := newSize - |updated[i - 1].value|;
          newSize := newSize + |e.value|;
          updated := updated[i - 1 := Pair(updated[i - 1].key, e.value)];
          return;
        }
        if e.op == REMOVE_KEY || (e.op == REMOVE_KV && e.value == updated[i - 1].value) {
          SizeErased(cfg, updated, i - 1);
          newSize := newSize - PairSize(cfg, updated[i - 1]);
          updated := updated[..i - 1] + updated[i..];
          return;
        }
        i := i - 1;
      }
      if e.op == UPSERT {
        SizePushed(cfg, updated, Pair(e.key, e.value));
        updated := updated + [Pair(e.key, e.value)];
        newSize := newSize + cfg.keySize(e.key) + |e.value|;
      }
    }
  }

  // ---------------------------------------------------------------- sizes

  lemma NoSize(cfg: Config)
    ensures PairsSize(cfg, []) == 0
  {
  }

  lemma PairsSizeNext(cfg: Config, ps: seq<Pair>, i: nat)
    requires i < |ps|
    ensures PairsSize(cfg, ps[..i + 1]) == PairsSize(cfg, ps[..i]) + PairSize(cfg, ps[i])
  {
    assert ps[..i + 1] == ps[..i] + [ps[i]];
    SizePushed(cfg, ps[..i], ps[i]);
  }

  lemma SizePushed(cfg: Config, ps: seq<Pair>, p: Pair)
    ensures PairsSize(cfg, ps + [p]) == PairsSize(cfg, ps) + PairSize(cfg, p)
  {
    PairsSizeConcat(cfg, ps, [p]);
    PairsSizeOne(cfg, p);
  }

  lemma SizeErased(cfg: Config, ps: seq<Pair>, i: nat)
    requires i < |ps|
    ensures PairsSize(cfg, ps) == PairsSize(cfg, ps[..i] + ps[i + 1..]) + PairSize(cfg, ps[i])
  {
    hide PairsSize;
    assert ps == ps[..i] + [ps[i]] + ps[i + 1..];
    PairsSizeConcat(cfg, ps[..i] + [ps[i]], ps[i + 1..]);
    SizePushed(cfg, ps[..i], ps[i]);
    PairsSizeConcat(cfg, ps[..i], ps[i + 1..]);
  }

  lemma SizeInserted(cfg: Config, ps: seq<Pair>, i: nat, p: Pair)
    requires i <= |ps|
    ensures PairsSize(cfg, ps[..i] + [p] + ps[i..]) == PairsSize(cfg, ps) + PairSize(cfg, p)
  {
    hide PairsSize;
    var qs := ps[..i] + [p] + ps[i..];
    SizeErased(cfg, qs, i);
    assert qs[..i] + qs[i + 1..] == ps;
  }

  lemma SizeUpdated(cfg: Config, ps: seq<Pair>, i: nat, v: Value)
    requires i < |ps|
    ensures PairsSize(cfg, ps[i := Pair(ps[i].key, v)]) == PairsSize(cfg, ps) - |ps[i].value| + |v|
  {
    hide PairsSize;
    var qs := ps[i := Pair(ps[i].key, v)];
    SizeErased(cfg, ps, i);
    SizeErased(cfg, qs, i);
    assert qs[..i] == ps[..i] && qs[i + 1..] == ps[i + 1..];
  }

  // ---------------------------------------------------------------- turns of the merge

  /** What one turn of the merge does, seen from the two cursors. */
  lemma MergeTurn(u: seq<Pair>, ps: seq<Pair>, copy: nat, es: seq<Edit>, edit: nat)
    requires copy <= |ps| && edit <= |es| && (copy < |ps| || edit < |es|)
    ensures var r := MergeFrom(u, ps[copy..], es[edit..]);
            if edit < |es| && es[edit].op != INSERT && (copy == |ps| || es[edit].key < ps[copy].key) then
              r == MergeFrom(Modify(u, es[edit]), ps[copy..], es[edit + 1..])
            else if edit < |es| && es[edit].op == INSERT && (copy == |ps| || es[edit].key <= ps[copy].key) then
              r == MergeFrom(u + [Pair(es[edit].key, es[edit].value)], ps[copy..], es[edit + 1..])
            else copy < |ps| && r == MergeFrom(u + [ps[copy]], ps[copy + 1..], es[edit..])
  {
    if edit < |es| {
      assert es[edit..][1..] == es[edit + 1..];
    }
    if copy < |ps| {
      assert ps[copy..][1..] == ps[copy + 1..];
    }
  }

  lemma MergeDone(u: seq<Pair>, ps: seq<Pair>, es: seq<Edit>)
    ensures MergeFrom(u, ps[|ps|..], es[|es|..]) == u
  {
  }
}
