/** Runs of edits, gets, seeks and ranks. */
module Acting {
  import opened Types
  import opened Multimap
  import opened Tree
  import opened Meaning
  import opened Lookup
  import opened Contents
  import opened Counting
  import opened Swapping
  import opened Flushing
  import opened Seeking
  import opened Ranking
  import opened Standing
  import opened Scanning
  import opened Promises
  import opened Deepening
  import Cursors
  import Leaves

  datatype Act = Do(call: Call) | SeekTo(m: nat) | RankAt(place: Place)

  datatype Reply = Answer(value: Option<Value>) | Item(item: Option<Pair>) | Number(rank: int)

  /** seek(m) with the item that the iterator then reads; rank of a place. */
  function ExecAct(n: Node, act: Act): (Node, Reply) {
    match act
    case Do(call) => (Exec(n, call).0, Answer(Exec(n, call).1))
    case SeekTo(m) =>
      var (t, place) := Seek(n, m, None, None);
      (t, Item(if place.None? then None else ItemAt(t, place.value)))
    case RankAt(p) => (Ranked(n, p, None, None), Number(Rank(n, p, None, None)))
  }

  function RunActs(n: Node, acts: seq<Act>): (r: (Node, seq<Reply>))
    ensures |r.1| == |acts|
    decreases |acts|
  {
    if |acts| == 0 then (n, [])
    else
      var (m, r) := ExecAct(n, acts[0]);
      var (t, rs) := RunActs(m, acts[1..]);
      (t, [r] + rs)
  }

  /**
   * A run of the reference on one key: it takes the same edits, every answer
   * about the key fits, and so does every item of the key that a seek reads.
   */
  ghost predicate ExplainsActs(k: Key, acts: seq<Act>, rs: seq<Reply>, b: Values, c: Values)
    requires |rs| == |acts|
    decreases |acts|
  {
    if |acts| == 0 then b == c
    else
      match acts[0]
      case Do(Change(e)) => exists m :: Steps(If(e, k), b, m) && ExplainsActs(k, acts[1..], rs[1..], m, c)
      case _ => ReplyFits(k, acts[0], rs[0], b) && ExplainsActs(k, acts[1..], rs[1..], b, c)
  }

  predicate ReplyFits(k: Key, act: Act, r: Reply, b: Values) {
    match act
    case Do(Query(j)) => r.Answer? && (j == k ==> Fits(r.value, b))
    case SeekTo(_) => r.Item? && (r.item.Some? && r.item.value.key == k ==> r.item.value.value in b)
    case _ => true
  }

  // ---------------------------------------------------------------- one act

  /** No look of a seek or a rank applies an edit deep that may not pass what waits below. */
  ghost predicate MayAct(n: Node, act: Act) {
    match act
    case Do(_) => true
    case SeekTo(_) => MayScan(n)
    case RankAt(p) => MayRank(n, p)
  }

  ghost predicate MayActs(n: Node, acts: seq<Act>)
    decreases |acts|
  {
    |acts| > 0 ==> MayAct(n, acts[0]) && MayActs(ExecAct(n, acts[0]).0, acts[1..])
  }

  lemma ActOrdered(n: Node, act: Act)
    requires Ordered(n, None, None) && Parsed(n)
    ensures Ordered(ExecAct(n, act).0, None, None) && Parsed(ExecAct(n, act).0)
  {
    match act
    case Do(call) => ExecOrdered(n, call);
    case SeekTo(m) => SeekOrdered(n, m, None, None);
    case RankAt(p) => RankedOrdered(n, p, None, None);
  }

  lemma SeenInRange(n: Node, p: Place, lo: Option<Key>, hi: Option<Key>)
    requires Ordered(n, lo, hi) && Stands(n, p)
    ensures ItemAt(n, p).Some? && Within(lo, hi, ItemAt(n, p).value.key)
  {
    hide Ordered, Stands, Content, Offset, ItemAt;
    ContentSorted(n, lo, hi);
    OffsetIsItem(n, p);
  }

  lemma LeafHolds(l: Leaves.Valid, s: Spot)
    requires LeafItem(l, s).Some?
    ensures var item := LeafItem(l, s).value; item.value in Leaves.LeafBag(l, item.key)
  {
    hide Leaves.LeafBag;
    var p := Place([], s);
    OffsetIsItem(Leaf(l), p);
    var item := LeafItem(l, s).value;
    assert item in Leaves.Items(l);
    BagItems(l, item.key);
    BagHolds(Leaves.Items(l), item.key, item.value);
  }

  /** The item at a settled place: nothing is pending for its key, and the leaf holds it. */
  lemma {:induction false} StandsHeld(n: Node, p: Place, lo: Option<Key>, hi: Option<Key>)
    requires Ordered(n, lo, hi) && Stands(n, p)
    ensures ItemAt(n, p).Some?
    ensures var item := ItemAt(n, p).value; Pending(n, item.key) == [] && item.value in Held(n, item.key)
    decreases n
  {
    hide Leaves.LeafBag, Range, Content;
    match n
    case Leaf(l) => LeafHolds(l, p.spot);
    case Internal(bs, q) =>
      var i, below := p.path[0], Place(p.path[1..], p.spot);
      OrderedParts(n, lo, hi);
      ChildInOrder(n, i, lo, hi);
      StandsHeld(bs[i].child, below, Lo(bs, i, lo), Hi(bs, i, hi));
      SeenInRange(bs[i].child, below, Lo(bs, i, lo), Hi(bs, i, hi));
      var k := ItemAt(bs[i].child, below).value.key;
      RangeInside(bs, lo, hi, i, k);
      RouteIs(bs, lo, hi, k, i);
      RangeOn(bs, q, lo, hi, i, k);
  }

  /** The item a seek reads is in every bag that the tree then stands for at its key. */
  lemma SeekFits(n: Node, m: nat, k: Key, c: Values)
    requires Ordered(n, None, None) && Parsed(n)
    requires Denotes(ExecAct(n, SeekTo(m)).0, k, c)
    ensures ReplyFits(k, SeekTo(m), ExecAct(n, SeekTo(m)).1, c)
  {
    hide Ordered, Parsed, Seek, ItemAt, Pending, Held, Stands, Cursors.AtLeaf;
    var (t, place) := Seek(n, m, None, None);
    SeekStands(n, m, None, None);
    SeekOrdered(n, m, None, None);
    if place.Some? {
      StandsHeld(t, place.value, None, None);
    }
  }

  /** What an act, other than an edit, leaves and answers. */
  lemma ActStep(n: Node, act: Act, k: Key, c: Values)
    requires Ordered(n, None, None) && Parsed(n) && MayAct(n, act) && !(act.Do? && act.call.Change?)
    requires Denotes(ExecAct(n, act).0, k, c)
    ensures Denotes(n, k, c) && ReplyFits(k, act, ExecAct(n, act).1, c)
  {
    hide Ordered, Parsed, MayScan, MayRank, Denotes, Seek, Ranked, Find, ValueAt;
    assert Within(None, None, k);
    match act
    case Do(Query(j)) =>
      FindStep(n, Some(j), None, None, k, c);
      if j == k {
        GetFits(n, k, c);
      }
    case SeekTo(m) =>
      SeekFits(n, m, k, c);
      SeekStep(n, m, None, None, k, c);
    case RankAt(p) =>
      RankedStep(n, p, None, None, k, c);
  }

  /**
   * The run theorem with seeks and ranks: every bag the tree denotes after a run
   * is reached by a run of the reference that took the same edits and agrees with
   * every answer, and with every item a seek has read.
   */
  lemma {:induction false} ActsExplained(n: Node, acts: seq<Act>, k: Key, c: Values) returns (b: Values)
    requires Ordered(n, None, None) && Parsed(n) && MayActs(n, acts)
    requires Denotes(RunActs(n, acts).0, k, c)
    ensures Denotes(n, k, b) && ExplainsActs(k, acts, RunActs(n, acts).1, b, c)
    decreases |acts|
  {
    hide Ordered, Parsed, MayAct, Denotes, ReplyFits;
    if |acts| == 0 {
      b := c;
    } else {
      var (m, r) := ExecAct(n, acts[0]);
      ActOrdered(n, acts[0]);
      var x := ActsExplained(m, acts[1..], k, c);
      assert RunActs(n, acts).1[1..] == RunActs(m, acts[1..]).1;
      if acts[0].Do? && acts[0].call.Change? {
        OrderedSorted(n, None, None);
        b := ShallowStep(n, acts[0].call.edit, k, x);
      } else {
        ActStep(n, acts[0], k, x);
        b := x;
      }
    }
  }

  // ---------------------------------------------------------------- a condition before the run

  /**
   * A set of edits that never harm each other: either none of them is applied
   * deep by a seek or a rank, or those of one key may run in any order.
   */
  ghost predicate Friendly(s: set<Edit>) {
    (forall e :: e in s ==> e.guaranteed) || (forall p, e :: p in s && e in s && p.key == e.key ==> Harmless(p, e))
  }

  ghost predicate From(es: seq<Edit>, s: set<Edit>) {
    forall j :: 0 <= j < |es| ==> es[j] in s
  }

  /** Whatever waits in the tree is one of these. */
  ghost predicate Drawn(n: Node, s: set<Edit>)
    decreases n
  {
    n.Internal? ==> From(n.queue, s) && forall i :: 0 <= i < |n.branches| ==> Drawn(n.branches[i].child, s)
  }

  lemma FromConcat(a: seq<Edit>, b: seq<Edit>, s: set<Edit>)
    requires From(a, s) && From(b, s)
    ensures From(a + b, s)
  {
  }

  lemma FromOn(es: seq<Edit>, k: Key, s: set<Edit>)
    requires From(es, s)
    ensures From(EditsOn(es, k), s)
  {
    EditsOnAre(es, k);
  }

  lemma {:induction false} DrawnPends(n: Node, k: Key, s: set<Edit>)
    requires Drawn(n, s)
    ensures From(Pending(n, k), s)
    decreases n
  {
    hide From, EditsOn;
    match n
    case Leaf(_) =>
      NoneFrom(s);
    case Internal(bs, q) =>
      FromOn(q, k, s);
      NoneFrom(s);
      if |bs| > 0 {
        DrawnPends(bs[Route(bs, k)].child, k, s);
        FromConcat(Pending(bs[Route(bs, k)].child, k), EditsOn(q, k), s);
      } else {
        FromConcat([], EditsOn(q, k), s);
      }
  }

  lemma {:induction false} PendingKeys(n: Node, k: Key)
    ensures forall j :: 0 <= j < |Pending(n, k)| ==> Pending(n, k)[j].key == k
    decreases n
  {
    hide EditsOn;
    if n.Internal? {
      EditsOnAre(n.queue, k);
      if |n.branches| > 0 {
        PendingKeys(n.branches[Route(n.branches, k)].child, k);
      }
    }
  }

  lemma NoneFrom(s: set<Edit>)
    ensures From([], s)
  {
  }

  lemma {:induction false} ApplyDrawn(n: Node, e: Edit, deep: bool, s: set<Edit>)
    requires Drawn(n, s) && e in s
    ensures Drawn(Apply(n, e, deep), s)
    decreases n
  {
    if n.Internal? && deep && |n.branches| > 0 {
      ApplyDrawn(n.branches[Route(n.branches, e.key)].child, e, deep, s);
    }
  }

  lemma {:induction false} ManyDrawn(n: Node, es: seq<Edit>, deep: bool, s: set<Edit>)
    requires Drawn(n, s) && From(es, s)
    ensures Drawn(ApplyMany(n, es, deep), s)
    decreases |es|
  {
    hide Drawn;
    if |es| > 0 {
      ApplyDrawn(n, es[0], deep, s);
      ManyDrawn(Apply(n, es[0], deep), es[1..], deep, s);
    }
  }

  lemma PushDrawn(n: Node, i: nat, lo: Option<Key>, hi: Option<Key>, deep: bool, s: set<Edit>)
    requires n.Internal? && i < |n.branches| && Drawn(n, s)
    ensures Drawn(Push(n, i, lo, hi, deep), s)
  {
    hide ApplyMany;
    var q := n.queue;
    var a, b := PendFrom(q, ForkLo(n.branches, i, lo)), PendTo(q, ForkHi(n.branches, i, hi));
    ManyDrawn(n.branches[i].child, Between(q, a, b), deep, s);
  }

  lemma PutDrawn(n: Node, i: nat, c: Node, s: set<Edit>)
    requires n.Internal? && i < |n.branches| && Drawn(n, s) && Drawn(c, s)
    ensures Drawn(PutChild(n, i, c), s)
  {
  }

  lemma ChildDrawn(n: Node, i: nat, s: set<Edit>)
    requires n.Internal? && i < |n.branches| && Drawn(n, s)
    ensures Drawn(n.branches[i].child, s)
  {
  }

  lemma {:induction false} FindDrawn(n: Node, key: Option<Key>, lo: Option<Key>, hi: Option<Key>, s: set<Edit>)
    requires Drawn(n, s)
    ensures Drawn(Find(n, key, lo, hi), s)
    decreases Height(n)
  {
    hide Drawn, Push;
    if n.Internal? && |n.branches| > 0 {
      var i := if key.Some? then Route(n.branches, key.value) else 0;
      var p := Push(n, i, lo, hi, false);
      PushedHeight(n, i, lo, hi, false);
      ChildHeight(p, i);
      PushDrawn(n, i, lo, hi, false, s);
      ChildDrawn(p, i, s);
      var flo, fhi := ForkLo(n.branches, i, lo), ForkHi(n.branches, i, hi);
      FindDrawn(p.branches[i].child, key, flo, fhi, s);
      PutDrawn(p, i, Find(p.branches[i].child, key, flo, fhi), s);
    }
  }

  lemma DeltaDrawn(n: Node, i: nat, lo: Option<Key>, hi: Option<Key>, s: set<Edit>)
    requires n.Internal? && i < |n.branches| && Drawn(n, s)
    ensures Drawn(RankDelta(n, i, lo, hi).0, s)
  {
    hide Push, AllGuaranteed, PendingFor, Deltas;
    assert Drawn(Touch(n, i), s);
    PushDrawn(Touch(n, i), i, lo, hi, true, s);
  }

  lemma {:induction false} SeekDrawn(n: Node, m: int, lo: Option<Key>, hi: Option<Key>, s: set<Edit>)
    requires Drawn(n, s)
    ensures Drawn(Seek(n, m, lo, hi).0, s)
    decreases Height(n), 1, 0
  {
    match n
    case Leaf(_) =>
    case Internal(_, _) => SeekFromDrawn(n, 0, m, lo, hi, s);
  }

  lemma {:induction false} SeekFromDrawn(n: Node, i: nat, m: int, lo: Option<Key>, hi: Option<Key>, s: set<Edit>)
    requires n.Internal? && Drawn(n, s)
    ensures Drawn(SeekFrom(n, i, m, lo, hi).0, s)
    decreases Height(n), 0, if i <= |n.branches| then |n.branches| - i else 0
  {
    hide Drawn, RankDelta, Push, PutChild, Seek;
    if i < |n.branches| {
      var (t, delta) := RankDelta(n, i, lo, hi);
      DeltaDrawn(n, i, lo, hi, s);
      if m < t.branches[i].count + delta {
        SeeksDown(n, i, m, t, delta, lo, hi);
        var p := Push(t, i, lo, hi, false);
        PushedHeight(t, i, lo, hi, false);
        ChildHeight(p, i);
        PushDrawn(t, i, lo, hi, false, s);
        ChildDrawn(p, i, s);
        var flo, fhi := ForkLo(t.branches, i, lo), ForkHi(t.branches, i, hi);
        SeekDrawn(p.branches[i].child, m, flo, fhi, s);
        PutDrawn(p, i, Seek(p.branches[i].child, m, flo, fhi).0, s);
      } else {
        SkipsOn(n, i, m, t, delta, lo, hi);
        SeekFromDrawn(t, i + 1, m - (t.branches[i].count + delta), lo, hi, s);
      }
    }
  }

  lemma {:induction false} RankedFromDrawn(n: Node, i: nat, upto: nat, lo: Option<Key>, hi: Option<Key>, s: set<Edit>)
    requires n.Internal? && Drawn(n, s)
    ensures Drawn(RankedFrom(n, i, upto, lo, hi), s)
    decreases if i <= |n.branches| then |n.branches| - i else 0
  {
    hide Drawn, RankDelta;
    if i < upto && i < |n.branches| {
      DeltaDrawn(n, i, lo, hi, s);
      RankedFromDrawn(RankDelta(n, i, lo, hi).0, i + 1, upto, lo, hi, s);
    }
  }

  lemma {:induction false} RankedDrawn(n: Node, p: Place, lo: Option<Key>, hi: Option<Key>, s: set<Edit>)
    requires Drawn(n, s)
    ensures Drawn(Ranked(n, p, lo, hi), s)
    decreases n
  {
    hide Drawn, RankedFrom, PutChild;
    if n.Internal? && |p.path| > 0 && p.path[0] < |n.branches| {
      var i := p.path[0];
      var c, below := n.branches[i].child, Place(p.path[1..], p.spot);
      RankedFromDrawn(n, 0, i, lo, hi, s);
      ChildDrawn(n, i, s);
      RankedDrawn(c, below, ForkLo(n.branches, i, lo), ForkHi(n.branches, i, hi), s);
      PutDrawn(RankedFrom(n, 0, i, lo, hi), i, Ranked(c, below, ForkLo(n.branches, i, lo), ForkHi(n.branches, i, hi)),
        s);
    }
  }

  lemma RangeFrom(bs: seq<Branch>, q: seq<Edit>, i: nat, s: set<Edit>)
    requires i < |bs| && From(q, s)
    ensures From(Range(bs, q, i), s)
  {
  }

  lemma FriendlyLook(n: Node, i: nat, s: set<Edit>)
    requires n.Internal? && i < |n.branches| && Drawn(n, s) && Friendly(s)
    ensures MayLook(n.branches, n.queue, i) && Drawn(Looked(n.branches, n.queue, i), s)
  {
    hide Range, Pending, Harmless, ApplyMany;
    var c, es := n.branches[i].child, Range(n.branches, n.queue, i);
    RangeFrom(n.branches, n.queue, i, s);
    ManyDrawn(c, es, !AllGuaranteed(es), s);
    if !AllGuaranteed(es) {
      forall j | 0 <= j < |es|
        ensures AllHarmless(Pending(c, es[j].key), es[j])
      {
        DrawnPends(c, es[j].key, s);
        PendingKeys(c, es[j].key);
      }
    }
  }

  lemma {:induction false} FriendlyScan(n: Node, s: set<Edit>)
    requires Drawn(n, s) && Friendly(s)
    ensures MayScan(n)
    decreases Height(n)
  {
    hide Drawn, Friendly, Looked, MayLook;
    if n.Internal? {
      forall i | 0 <= i < |n.branches|
        ensures MayScanAt(n.branches, n.queue, i)
      {
        FriendlyLook(n, i, s);
        LookedHeight(n.branches, n.queue, i);
        FriendlyScan(Looked(n.branches, n.queue, i), s);
      }
    }
  }

  lemma {:induction false} FriendlyRank(n: Node, p: Place, s: set<Edit>)
    requires Drawn(n, s) && Friendly(s)
    ensures MayRank(n, p)
    decreases n
  {
    hide Friendly, MayLook;
    if n.Internal? && |p.path| > 0 && p.path[0] < |n.branches| {
      var i := p.path[0];
      forall j | 0 <= j < i
        ensures MayLook(n.branches, n.queue, j)
      {
        FriendlyLook(n, j, s);
      }
      FriendlyRank(n.branches[i].child, Place(p.path[1..], p.spot), s);
    }
  }

  lemma ActDrawn(n: Node, act: Act, s: set<Edit>)
    requires Drawn(n, s) && Friendly(s) && (act.Do? && act.call.Change? ==> act.call.edit in s)
    ensures MayAct(n, act) && Drawn(ExecAct(n, act).0, s)
  {
    hide Drawn, Friendly, MayScan, MayRank, Find, Seek, Ranked, Apply;
    match act
    case Do(Change(e)) => ApplyDrawn(n, e, false, s);
    case Do(Query(k)) => FindDrawn(n, Some(k), None, None, s);
    case SeekTo(m) =>
      FriendlyScan(n, s);
      SeekDrawn(n, m, None, None, s);
    case RankAt(p) =>
      FriendlyRank(n, p, s);
      RankedDrawn(n, p, None, None, s);
  }

  /** The edits that wait in the tree before the run, and those the run asks for. */
  ghost predicate Asks(acts: seq<Act>, s: set<Edit>) {
    forall j :: 0 <= j < |acts| && acts[j].Do? && acts[j].call.Change? ==> acts[j].call.edit in s
  }

  lemma {:induction false} FriendlyActs(n: Node, acts: seq<Act>, s: set<Edit>)
    requires Drawn(n, s) && Asks(acts, s) && Friendly(s)
    ensures MayActs(n, acts)
    decreases |acts|
  {
    hide Drawn, Friendly, MayAct;
    if |acts| > 0 {
      ActDrawn(n, acts[0], s);
      FriendlyActs(ExecAct(n, acts[0]).0, acts[1..], s);
    }
  }

  /**
   * So such runs are explained if, before the run, all edits that wait and all
   * that the run asks for are guaranteed, or no two of one key harm each other.
   */
  lemma FriendlyExplained(n: Node, acts: seq<Act>, s: set<Edit>, k: Key, c: Values) returns (b: Values)
    requires Ordered(n, None, None) && Parsed(n) && Drawn(n, s) && Asks(acts, s) && Friendly(s)
    requires Denotes(RunActs(n, acts).0, k, c)
    ensures Denotes(n, k, b) && ExplainsActs(k, acts, RunActs(n, acts).1, b, c)
  {
    hide Ordered, Parsed, Drawn, Friendly, MayActs, Denotes, RunActs, ExplainsActs;
    FriendlyActs(n, acts, s);
    b := ActsExplained(n, acts, k, c);
  }
}
