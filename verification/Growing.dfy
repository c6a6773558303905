/**
 * New roots.  write() puts a node over the branches that the flush leaves, and
 * tries four times to fit them into one page: when it succeeds, in sizes and counts.
 */
module Growing {
  import opened Types
  import opened Tree
  import opened Meaning
  import opened BranchLists
  import opened Splitting
  import opened Flushing
  import opened Writing

  // ---------------------------------------------------------------- one round

  /** The number of branches cut off one by one until the rest fits a page. */
  function CutOff(cfg: Config, bs: seq<Branch>): (r: nat)
    ensures |bs| > 0 ==> r < |bs|
    decreases |bs|
  {
    if !InternalSplits(cfg, bs) || |bs| <= 1 then 0 else 1 + CutOff(cfg, bs[1..])
  }

  /** The branches that a round leaves of the first p. */
  function Left(cfg: Config, bs: seq<Branch>, p: nat): (r: nat)
    requires 0 < p <= |bs|
    ensures 0 < r <= p
  {
    1 + CutOff(cfg, bs[..p])
  }

  /** A round makes one branch of each that is cut off, with its separator, and one of the rest. */
  lemma {:induction false} RoundIs(cfg: Config, bs: seq<Branch>, q: seq<Edit>)
    requires |bs| > 0
    ensures var r := SplitInternal(cfg, bs, q);
            |r| == 1 + CutOff(cfg, bs) && forall j :: 0 < j < |r| ==> r[j].minKey == bs[j].minKey
    decreases |bs|
  {
    hide InternalSplits;
    if InternalSplits(cfg, bs) && |bs| > 1 {
      SplitTurn(cfg, bs, q);
      var cut := Cut(q, bs[1].minKey);
      var rest := SplitInternal(cfg, bs[1..], q[cut..]);
      RoundIs(cfg, bs[1..], q[cut..]);
      var r := SplitInternal(cfg, bs, q);
      forall j | 0 < j < |r|
        ensures r[j].minKey == bs[j].minKey
      {
        assert r[j] == WithFirst(rest, bs[1].minKey)[j - 1];
        if j > 1 {
          assert rest[j - 1].minKey == bs[1..][j - 1].minKey;
        }
      }
    } else {
      Unsplit(cfg, bs, q);
    }
  }

  // -- separators alone decide

  /** Equal separators, but for the first one, which is not stored. */
  ghost predicate SameKeys(bs: seq<Branch>, cs: seq<Branch>) {
    |bs| == |cs| && forall j :: 0 < j < |bs| ==> bs[j].minKey == cs[j].minKey
  }

  lemma {:induction false} SameSize(cfg: Config, bs: seq<Branch>, cs: seq<Branch>, i: nat)
    requires SameKeys(bs, cs) && i <= |bs|
    ensures BranchesSize(cfg, bs, i) == BranchesSize(cfg, cs, i)
    decreases |bs| - i
  {
    if i < |bs| {
      SameSize(cfg, bs, cs, i + 1);
    }
  }

  lemma {:induction false} SameCutOff(cfg: Config, bs: seq<Branch>, cs: seq<Branch>)
    requires SameKeys(bs, cs)
    ensures CutOff(cfg, bs) == CutOff(cfg, cs)
    decreases |bs|
  {
    hide BranchesSize;
    SameSize(cfg, bs, cs, 0);
    if |bs| > 1 {
      SameCutOff(cfg, bs[1..], cs[1..]);
    }
  }

  // ---------------------------------------------------------------- four rounds

  /** The branches that are left of the first p after some rounds. */
  function LeftAfter(cfg: Config, bs: seq<Branch>, p: nat, rounds: nat): (r: nat)
    requires 0 < p <= |bs|
    ensures 0 < r <= p
  {
    if rounds == 0 then p else LeftAfter(cfg, bs, Left(cfg, bs, p), rounds - 1)
  }

  lemma {:induction false} LeftOne(cfg: Config, bs: seq<Branch>, rounds: nat)
    requires |bs| > 0
    ensures LeftAfter(cfg, bs, 1, rounds) == 1
  {
    if rounds > 0 {
      assert Left(cfg, bs, 1) == 1;
      LeftOne(cfg, bs, rounds - 1);
    }
  }

  lemma {:induction false} GrowLeaves(cfg: Config, bs: seq<Branch>, split: seq<Branch>, tries: nat)
    requires 0 < |split| <= |bs| && SameKeys(bs[..|split|], split)
    ensures Grow(cfg, split, tries).Some? <==> LeftAfter(cfg, bs, |split|, tries) == 1
    decreases tries
  {
    hide CutOff, SplitInternal;
    if |split| == 1 {
      LeftOne(cfg, bs, tries);
    } else if tries > 0 {
      var r := SplitInternal(cfg, split, []);
      RoundIs(cfg, split, []);
      SameCutOff(cfg, bs[..|split|], split);
      assert |r| == Left(cfg, bs, |split|);
      forall j | 0 < j < |r|
        ensures bs[..|r|][j].minKey == r[j].minKey
      {
        assert bs[..|split|][j].minKey == split[j].minKey;
      }
      GrowLeaves(cfg, bs, r, tries - 1);
    }
  }

  /** write() throws no exception if and only if four rounds over the flushed branches leave one. */
  lemma WriteExact(cfg: Config, n: Node)
    ensures Write(cfg, n).Some? <==> LeftAfter(cfg, Flush(cfg, n), |Flush(cfg, n)|, 4) == 1
  {
    hide Flush, Grow, LeftAfter;
    var f := Flush(cfg, n);
    assert f[..|f|] == f;
    GrowLeaves(cfg, f, f, 4);
  }

  /**
   * If the flush leaves one branch, its child is the new root; if it leaves more,
   * and they fit one page, the new root is the node over exactly these branches.
   */
  lemma WriteRoot(cfg: Config, n: Node)
    ensures var f := Flush(cfg, n);
            && (|f| == 1 ==> Write(cfg, n) == Some(f[0].child))
            && (|f| > 1 && !InternalSplits(cfg, f) ==> Write(cfg, n) == Some(Internal(f, [])))
  {
    hide Flush, SplitInternal, InternalSplits;
    var f := Flush(cfg, n);
    if |f| > 1 && !InternalSplits(cfg, f) {
      Unsplit(cfg, f, []);
      var r := SplitInternal(cfg, f, []);
      assert Grow(cfg, f, 4) == Grow(cfg, r, 3) == Some(r[0].child);
    }
  }

  // ---------------------------------------------------------------- separators of one size

  ghost predicate Uniform(cfg: Config, bs: seq<Branch>, s: nat) {
    forall j :: 0 < j < |bs| ==> SepSize(cfg, bs[j]) == s
  }

  /** The size of a page with k branches. */
  function PageSize(k: nat, s: nat): nat
    requires k > 0
  {
    HEADER + 4 + k * BRANCH + (k - 1) * s
  }

  lemma {:induction false} UniformFrom(cfg: Config, bs: seq<Branch>, s: nat, i: nat)
    requires Uniform(cfg, bs, s) && 0 < i <= |bs|
    ensures BranchesSize(cfg, bs, i) == (|bs| - i) * (BRANCH + s)
    decreases |bs| - i
  {
    if i < |bs| {
      UniformFrom(cfg, bs, s, i + 1);
      assert (|bs| - i) * (BRANCH + s) == (|bs| - i - 1) * (BRANCH + s) + (BRANCH + s);
    }
  }

  lemma UniformSize(cfg: Config, bs: seq<Branch>, s: nat)
    requires Uniform(cfg, bs, s) && |bs| > 0
    ensures InternalSize(cfg, bs) == PageSize(|bs|, s)
  {
    UniformFrom(cfg, bs, s, 1);
    var k := |bs| - 1;
    assert k * (BRANCH + s) == k * BRANCH + k * s;
  }

  /** m branches are the most that fit a page; a single branch stays in its node in any case. */
  ghost predicate Holds(cfg: Config, s: nat, m: nat) {
    && m > 0 && BranchArea(cfg) != 0
    && (m > 1 ==> PageSize(m, s) <= BranchArea(cfg))
    && PageSize(m + 1, s) > BranchArea(cfg)
  }

  lemma PageGrows(k: nat, m: nat, s: nat)
    requires 0 < k <= m
    ensures PageSize(k, s) <= PageSize(m, s)
  {
    assert (m - 1) * s == (k - 1) * s + (m - k) * s;
    assert (m - k) * s >= 0;
  }

  lemma {:induction false} UniformCutOff(cfg: Config, bs: seq<Branch>, s: nat, m: nat)
    requires Uniform(cfg, bs, s) && |bs| > 0 && Holds(cfg, s, m)
    ensures CutOff(cfg, bs) == if |bs| <= m then 0 else |bs| - m
    decreases |bs|
  {
    hide PageSize;
    UniformSize(cfg, bs, s);
    if |bs| <= m {
      PageGrows(|bs|, m, s);
    } else {
      PageGrows(m + 1, |bs|, s);
      if |bs| > 1 {
        forall j | 0 < j < |bs[1..]|
          ensures SepSize(cfg, bs[1..][j]) == s
        {
          assert bs[1..][j] == bs[j + 1];
        }
        UniformCutOff(cfg, bs[1..], s, m);
      }
    }
  }

  /** A round makes k - m + 1 branches of k > m, and one of fewer. */
  lemma UniformRound(cfg: Config, bs: seq<Branch>, p: nat, s: nat, m: nat)
    requires Uniform(cfg, bs, s) && 0 < p <= |bs| && Holds(cfg, s, m)
    ensures Left(cfg, bs, p) == if p <= m then 1 else p - m + 1
  {
    hide SepSize, Holds;
    forall j | 0 < j < |bs[..p]|
      ensures SepSize(cfg, bs[..p][j]) == s
    {
      assert bs[..p][j] == bs[j];
    }
    UniformCutOff(cfg, bs[..p], s, m);
  }

  lemma {:induction false} UniformRounds(cfg: Config, bs: seq<Branch>, p: nat, rounds: nat, s: nat, m: nat)
    requires Uniform(cfg, bs, s) && 0 < p <= |bs| && Holds(cfg, s, m)
    ensures LeftAfter(cfg, bs, p, rounds) == 1 <==> p <= 1 + rounds * (m - 1)
    decreases rounds
  {
    hide Uniform, Holds, Left;
    HoldsSome(cfg, s, m);
    if rounds > 0 {
      UniformRound(cfg, bs, p, s, m);
      UniformRounds(cfg, bs, Left(cfg, bs, p), rounds - 1, s, m);
      assert rounds * (m - 1) == (rounds - 1) * (m - 1) + (m - 1);
      assert (rounds - 1) * (m - 1) >= 0;
    }
  }

  lemma HoldsSome(cfg: Config, s: nat, m: nat)
    requires Holds(cfg, s, m)
    ensures m > 0
  {
  }

  /**
   * With separators of one size and m branches to a page, write() throws if and
   * only if the flush leaves more than 1 + 4 * (m - 1) branches.
   */
  lemma WriteThrows(cfg: Config, n: Node, s: nat, m: nat)
    requires Uniform(cfg, Flush(cfg, n), s) && Holds(cfg, s, m)
    ensures Write(cfg, n).None? <==> |Flush(cfg, n)| > 1 + 4 * (m - 1)
  {
    hide Uniform, Holds, Flush, LeftAfter, Write;
    WriteExact(cfg, n);
    UniformRounds(cfg, Flush(cfg, n), |Flush(cfg, n)|, 4, s, m);
  }
}
