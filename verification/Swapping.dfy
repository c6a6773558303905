/**
 * Two edits of one key in the wrong order: for which pairs that does no harm,
 * and for which it does.
 */
module Swapping {
  import opened Types
  import opened Multimap
  import Leaves

  /** First x, then y. */
  ghost predicate Then(x: Edit, y: Edit, b: Values, c: Values) {
    exists m :: Step(x, b, m) && Step(y, m, c)
  }

  /** Running e before p reaches nothing that running p before e does not reach, from any bag. */
  ghost predicate MayOvertake(p: Edit, e: Edit) {
    forall b, c :: Then(e, p, b, c) ==> Then(p, e, b, c)
  }

  /** The pairs of edits of one key that may be swapped. */
  predicate Harmless(p: Edit, e: Edit) {
    match p.op
    case INSERT => e.op == INSERT || (e.op == REMOVE_KV && e.value != p.value)
    case UPSERT => (e.op == UPSERT && e.value == p.value) || (e.op == REMOVE_KV && e.value != p.value)
    case REMOVE_KEY => e.op == REMOVE_KEY || e.op == REMOVE_KV
    case REMOVE_KV => e.op == REMOVE_KV || (e.op == INSERT && e.value != p.value)
  }

  predicate AllHarmless(ps: seq<Edit>, e: Edit) {
    forall i :: 0 <= i < |ps| ==> Harmless(ps[i], e)
  }

  lemma ThenVia(x: Edit, y: Edit, b: Values, m: Values, c: Values)
    requires Step(x, b, m) && Step(y, m, c)
    ensures Then(x, y, b, c)
  {
  }

  // ---------------------------------------------------------------- bags

  lemma DropDrop(b: Values, x: Value, y: Value)
    ensures b - multiset{x} - multiset{y} == b - multiset{y} - multiset{x}
  {
  }

  lemma AddDrop(b: Values, v: Value, w: Value)
    requires v != w
    ensures b + multiset{v} - multiset{w} == b - multiset{w} + multiset{v}
  {
  }

  lemma AddAdd(b: Values, x: Value, y: Value)
    ensures b + multiset{x} + multiset{y} == b + multiset{y} + multiset{x}
  {
  }

  lemma TwoDrop(v: Value, x: Value)
    ensures multiset{v} + multiset{x} - multiset{v} == multiset{x}
    ensures v in multiset{v} + multiset{x}
  {
  }

  lemma DropAbsent(b: Values, w: Value)
    requires w !in b
    ensures b - multiset{w} == b
  {
  }

  lemma DropsToNone(b: Values, w: Value)
    requires b - multiset{w} == multiset{} && w in b
    ensures b == multiset{w}
  {
    assert b == (b - multiset{w}) + multiset{w};
  }

  lemma OnlyOne(b: Values, x: Value, v: Value)
    requires b == multiset{v} && x in b
    ensures x == v && b - multiset{x} == multiset{}
  {
  }

  // ---------------------------------------------------------------- harmless pairs

  lemma SwapPlain(p: Edit, e: Edit, b: Values, c: Values)
    requires Harmless(p, e) && Then(e, p, b, c)
    requires (p.op == INSERT || p.op == REMOVE_KV) && (e.op == INSERT || e.op == REMOVE_KV)
    ensures Then(p, e, b, c)
  {
    var m :| Step(e, b, m) && Step(p, m, c);
    if p.op == INSERT && e.op == INSERT {
      AddAdd(b, p.value, e.value);
    } else if p.op == INSERT {
      AddDrop(b, p.value, e.value);
    } else if e.op == INSERT {
      AddDrop(b, e.value, p.value);
    } else {
      DropDrop(b, p.value, e.value);
    }
    ThenVia(p, e, b, if p.op == INSERT then b + multiset{p.value} else b - multiset{p.value}, c);
  }

  /** An edit that takes any value, before one that removes a given value. */
  lemma SwapRemoval(p: Edit, e: Edit, b: Values, c: Values)
    requires p.op == REMOVE_KEY && e.op == REMOVE_KV && Then(e, p, b, c)
    ensures Then(p, e, b, c)
  {
    var m :| Step(e, b, m) && Step(p, m, c);
    var w := e.value;
    if m == multiset{} {
      if w in b {
        DropsToNone(b, w);
        assert b - multiset{w} == m;
      } else {
        DropAbsent(b, w);
      }
      ThenVia(p, e, b, multiset{}, c);
    } else {
      var y :| y in m && c == m - multiset{y};
      DropDrop(b, w, y);
      assert y in b;
      ThenVia(p, e, b, b - multiset{y}, c);
    }
  }

  lemma SwapUpsert(p: Edit, e: Edit, b: Values, c: Values)
    requires p.op == UPSERT && e.op == REMOVE_KV && e.value != p.value && Then(e, p, b, c)
    ensures Then(p, e, b, c)
  {
    var m :| Step(e, b, m) && Step(p, m, c);
    var v, w := p.value, e.value;
    if m == multiset{} {
      UpsertAlone(p, e, b);
      DropAbsent(multiset{v}, w);
      ThenVia(p, e, b, multiset{v}, c);
    } else {
      var y :| y in m && c == m - multiset{y} + multiset{v};
      AddDrop(b - multiset{y}, v, w);
      DropDrop(b, w, y);
      assert y in b;
      ThenVia(p, e, b, b - multiset{y} + multiset{v}, c);
    }
  }

  lemma UpsertAlone(p: Edit, e: Edit, b: Values)
    requires p.op == UPSERT && b - multiset{e.value} == multiset{}
    ensures Step(p, b, multiset{p.value})
  {
    if e.value in b {
      DropsToNone(b, e.value);
      assert multiset{} + multiset{p.value} == multiset{p.value};
      assert b - multiset{e.value} + multiset{p.value} == multiset{p.value};
    } else {
      DropAbsent(b, e.value);
    }
  }

  lemma SwapSame(p: Edit, e: Edit, b: Values, c: Values)
    requires p.op == e.op && (p.op == REMOVE_KEY || p.value == e.value) && Then(e, p, b, c)
    ensures Then(p, e, b, c)
  {
    var m :| Step(e, b, m) && Step(p, m, c);
    ThenVia(p, e, b, m, c);
  }

  lemma Swap(p: Edit, e: Edit, b: Values, c: Values)
    requires Harmless(p, e) && Then(e, p, b, c)
    ensures Then(p, e, b, c)
  {
    hide Then, Step;
    if p.op == REMOVE_KEY && e.op == REMOVE_KV {
      SwapRemoval(p, e, b, c);
    } else if p.op == UPSERT && e.op == REMOVE_KV {
      SwapUpsert(p, e, b, c);
    } else if p.op == REMOVE_KEY || p.op == UPSERT {
      SwapSame(p, e, b, c);
    } else {
      SwapPlain(p, e, b, c);
    }
  }

  // ---------------------------------------------------------------- harmful pairs

  /** e before p reaches c from b, and p before e does not. */
  ghost predicate Differs(p: Edit, e: Edit, b: Values, c: Values) {
    Then(e, p, b, c) && !Then(p, e, b, c)
  }

  /** Before an edit that adds: the value added stays behind, or a value too many does. */
  lemma AddedFirst(p: Edit, e: Edit) returns (c: Values)
    requires !Harmless(p, e) && (p.op == INSERT || p.op == UPSERT)
    ensures Differs(p, e, multiset{}, c)
  {
    if e.op == REMOVE_KEY || e.op == REMOVE_KV {
      c := multiset{p.value};
      RemovesNothing(p, e);
    } else if e.op == UPSERT && p.op == INSERT {
      c := multiset{e.value} + multiset{p.value};
      UpsertGrows(p, e);
    } else {
      c := multiset{p.value};
      UpsertShrinks(p, e);
    }
  }

  lemma RemovesNothing(p: Edit, e: Edit)
    requires p.op == INSERT || p.op == UPSERT
    requires e.op == REMOVE_KEY || (e.op == REMOVE_KV && e.value == p.value)
    ensures Differs(p, e, multiset{}, multiset{p.value})
  {
    var b, c := multiset{}, multiset{p.value};
    assert b + c == c && b - multiset{e.value} == b;
    ThenVia(e, p, b, b, c);
    forall m | Step(p, b, m)
      ensures !Step(e, m, c)
    {
      assert m == c && |m| == 1 && p.value in m;
    }
  }

  lemma UpsertGrows(p: Edit, e: Edit)
    requires p.op == INSERT && e.op == UPSERT
    ensures Differs(p, e, multiset{}, multiset{e.value} + multiset{p.value})
  {
    var b, c := multiset{}, multiset{e.value} + multiset{p.value};
    ThenVia(e, p, b, multiset{e.value}, c);
    forall m | Step(p, b, m)
      ensures !Step(e, m, c)
    {
      assert m == multiset{p.value} && |m| == 1 && |c| == 2 && m != multiset{};
    }
  }

  lemma UpsertShrinks(p: Edit, e: Edit)
    requires p.op == UPSERT && (e.op == INSERT || (e.op == UPSERT && e.value != p.value))
    ensures Differs(p, e, multiset{}, multiset{p.value})
  {
    var b, c := multiset{}, multiset{p.value};
    assert b + multiset{e.value} == multiset{e.value};
    assert multiset{e.value} - multiset{e.value} + c == c;
    ThenVia(e, p, b, multiset{e.value}, c);
    forall m | Step(p, b, m)
      ensures !Step(e, m, c)
    {
      assert m == c && |c| == 1;
      assert e.op == INSERT ==> |m + multiset{e.value}| == 2;
      assert forall x :: e.value in m - multiset{x} + multiset{e.value};
    }
  }

  lemma RemovedFirst(p: Edit, e: Edit)
    requires p.op == REMOVE_KEY && (e.op == INSERT || e.op == UPSERT)
    ensures Differs(p, e, multiset{}, multiset{})
  {
    var b := multiset{};
    assert b + multiset{e.value} == multiset{e.value};
    OnlyOne(multiset{e.value}, e.value, e.value);
    ThenVia(e, p, b, multiset{e.value}, b);
    forall m | Step(p, b, m)
      ensures !Step(e, m, b)
    {
      assert m == b && e.value in m + multiset{e.value} && e.value in multiset{e.value};
    }
  }

  lemma Single(x: Value)
    ensures |multiset{x}| == 1
  {
  }

  lemma ShrinksOrGrows(e: Edit, b: Values, c: Values)
    requires b != multiset{} && Step(e, b, c)
    ensures e.op == REMOVE_KEY ==> |c| == |b| - 1
    ensures e.op == UPSERT ==> |c| == |b|
  {
  }

  /** A removal of v, overtaken by an edit that takes v itself and leaves another value. */
  lemma TakenFirst(p: Edit, e: Edit, x: Value)
    requires p.op == REMOVE_KV && x != p.value && e.op == REMOVE_KEY
    ensures Differs(p, e, multiset{p.value} + multiset{x}, multiset{x})
  {
    var v := p.value;
    var b, c := multiset{v} + multiset{x}, multiset{x};
    TwoDrop(v, x);
    DropAbsent(c, v);
    ThenVia(e, p, b, c, c);
    Single(x);
    forall m | Step(p, b, m)
      ensures !Step(e, m, c)
    {
      if Step(e, c, c) { ShrinksOrGrows(e, c, c); }
    }
  }

  lemma ReplacedFirst(p: Edit, e: Edit, x: Value)
    requires p.op == REMOVE_KV && x != p.value && e.op == UPSERT && e.value != p.value
    ensures Differs(p, e, multiset{p.value} + multiset{x}, multiset{x} + multiset{e.value})
  {
    var v := p.value;
    var b, c := multiset{v} + multiset{x}, multiset{x} + multiset{e.value};
    TwoDrop(v, x);
    Leaves.ExchangeIsStep(e, b, c, v);
    DropAbsent(c, v);
    ThenVia(e, p, b, c, c);
    Single(x);
    Single(e.value);
    forall m | Step(p, b, m)
      ensures !Step(e, m, c)
    {
      if Step(e, multiset{x}, c) { ShrinksOrGrows(e, multiset{x}, c); }
    }
  }

  lemma RemovedValue(p: Edit, e: Edit)
    requires p.op == REMOVE_KV && (e.op == UPSERT || e.op == INSERT) && e.value == p.value
    ensures Differs(p, e, multiset{}, multiset{})
  {
    var b := multiset{};
    assert b + multiset{e.value} == multiset{e.value};
    OnlyOne(multiset{e.value}, e.value, e.value);
    ThenVia(e, p, b, multiset{e.value}, b);
    forall m | Step(p, b, m)
      ensures !Step(e, m, b)
    {
      assert m == b && e.value in m + multiset{e.value} && e.value in multiset{e.value};
    }
  }

  /** The bags to look at: the empty one, or one that holds the value to be removed first, and another. */
  function Victims(p: Edit, e: Edit): seq<Value> {
    if p.op == REMOVE_KV && (e.op == REMOVE_KEY || (e.op == UPSERT && e.value != p.value)) then [p.value, [0] + p.value]
    else []
  }

  lemma Harmful(p: Edit, e: Edit) returns (c: Values)
    requires !Harmless(p, e)
    ensures Differs(p, e, multiset(Victims(p, e)), c)
    ensures Victims(p, e) != [] ==>
              c == multiset{[0] + p.value} + if e.op == UPSERT then multiset{e.value} else multiset{}
  {
    hide Differs;
    var x := [0] + p.value;
    assert |x| > |p.value|;
    if p.op == INSERT || p.op == UPSERT {
      c := AddedFirst(p, e);
    } else if p.op == REMOVE_KEY {
      c := multiset{};
      RemovedFirst(p, e);
    } else if e.op == REMOVE_KEY {
      c := multiset{x};
      assert c == multiset{x} + multiset{};
      assert multiset([p.value, x]) == multiset{p.value} + multiset{x};
      TakenFirst(p, e, x);
    } else if e.op == UPSERT && e.value != p.value {
      c := multiset{x} + multiset{e.value};
      assert multiset([p.value, x]) == multiset{p.value} + multiset{x};
      ReplacedFirst(p, e, x);
    } else {
      c := multiset{};
      RemovedValue(p, e);
    }
  }

  /** Exactly the pairs of the table may be swapped. */
  lemma OvertakingExact(p: Edit, e: Edit)
    ensures MayOvertake(p, e) <==> Harmless(p, e)
  {
    hide Then, Step;
    if Harmless(p, e) {
      forall b, c | Then(e, p, b, c)
        ensures Then(p, e, b, c)
      {
        Swap(p, e, b, c);
      }
    } else {
      var b := multiset(Victims(p, e));
      var c := Harmful(p, e);
      assert Then(e, p, b, c) && !Then(p, e, b, c);
    }
  }

  // ---------------------------------------------------------------- one before several

  /** An edit that may be swapped with each of several may be moved before them all. */
  lemma {:induction false} OvertakeAll(ps: seq<Edit>, e: Edit, b: Values, m: Values, c: Values)
    requires AllHarmless(ps, e)
    requires Step(e, b, m) && Steps(ps, m, c)
    ensures Steps(ps + [e], b, c)
  {
    hide Step;
    if |ps| == 0 {
      assert ps + [e] == [e];
      StepsOne(e, b, c);
    } else {
      var x :| Step(ps[0], m, x) && Steps(ps[1..], x, c);
      ThenVia(e, ps[0], b, m, x);
      Swap(ps[0], e, b, x);
      var n :| Step(ps[0], b, n) && Step(e, n, x);
      OvertakeAll(ps[1..], e, n, x, c);
      var s := ps + [e];
      assert s[0] == ps[0] && s[1..] == ps[1..] + [e];
      StepsCons(s, b, n, c);
    }
  }
}
