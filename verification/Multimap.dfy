/**
 * The reference: a plain multimap, one bag of values per key.  An upsert or a
 * removal by key may pick any value of the key, so an edit is a relation.
 */
module Multimap {
  import opened Types

  type Values = multiset<Value>

  /** One edit on the bag of its own key. */
  ghost predicate Step(e: Edit, b: Values, c: Values) {
    match e.op
    case INSERT => c == b + multiset{e.value}
    case UPSERT =>
      if b == multiset{} then c == multiset{e.value}
      else exists x :: x in b && c == b - multiset{x} + multiset{e.value}
    case REMOVE_KEY =>
      if b == multiset{} then c == b
      else exists x :: x in b && c == b - multiset{x}
    case REMOVE_KV => c == b - multiset{e.value}
  }

  /** Edits of one key, oldest first. */
  ghost predicate Steps(es: seq<Edit>, b: Values, c: Values) {
    if |es| == 0 then b == c
    else exists m :: Step(es[0], b, m) && Steps(es[1..], m, c)
  }

  lemma StepTotal(e: Edit, b: Values) returns (c: Values)
    ensures Step(e, b, c)
  {
    match e.op
    case INSERT => c := b + multiset{e.value};
    case UPSERT =>
      if b == multiset{} {
        c := multiset{e.value};
      } else {
        var x :| x in b;
        c := b - multiset{x} + multiset{e.value};
      }
    case REMOVE_KEY =>
      if b == multiset{} {
        c := b;
      } else {
        var x :| x in b;
        c := b - multiset{x};
      }
    case REMOVE_KV => c := b - multiset{e.value};
  }

  lemma {:induction false} StepsTotal(es: seq<Edit>, b: Values) returns (c: Values)
    ensures Steps(es, b, c)
  {
    if |es| == 0 {
      c := b;
    } else {
      var m := StepTotal(es[0], b);
      c := StepsTotal(es[1..], m);
    }
  }

  lemma StepsOne(e: Edit, b: Values, c: Values)
    ensures Steps([e], b, c) <==> Step(e, b, c)
  {
    assert [e][1..] == [];
    if Step(e, b, c) {
      assert Steps([e][1..], c, c);
    }
  }

  lemma StepsCons(es: seq<Edit>, b: Values, m: Values, c: Values)
    requires |es| > 0 && Step(es[0], b, m) && Steps(es[1..], m, c)
    ensures Steps(es, b, c)
  {
  }

  lemma {:induction false} StepsJoin(a: seq<Edit>, d: seq<Edit>, b: Values, m: Values, c: Values)
    requires Steps(a, b, m) && Steps(d, m, c)
    ensures Steps(a + d, b, c)
  {
    hide Step;
    if |a| == 0 {
      assert a + d == d;
    } else {
      var x :| Step(a[0], b, x) && Steps(a[1..], x, m);
      StepsJoin(a[1..], d, x, m, c);
      var s := a + d;
      assert s[0] == a[0] && s[1..] == a[1..] + d;
      StepsCons(s, b, x, c);
    }
  }

  lemma {:induction false} StepsSplit(a: seq<Edit>, d: seq<Edit>, b: Values, c: Values) returns (m: Values)
    requires Steps(a + d, b, c)
    ensures Steps(a, b, m) && Steps(d, m, c)
  {
    if |a| == 0 {
      assert a + d == d;
      m := b;
    } else {
      assert (a + d)[1..] == a[1..] + d;
      var x :| Step((a + d)[0], b, x) && Steps((a + d)[1..], x, c);
      m := StepsSplit(a[1..], d, x, c);
    }
  }

  // ------------------------------------------------- keys holding at most one value

  /** Following the edits from b, the key never holds two values. */
  ghost predicate SingleValued(es: seq<Edit>, b: Values) {
    |b| <= 1 &&
    (|es| > 0 ==> forall m :: Step(es[0], b, m) ==> SingleValued(es[1..], m))
  }

  lemma StepDeterministic(e: Edit, b: Values, c: Values, d: Values)
    requires |b| <= 1
    requires Step(e, b, c) && Step(e, b, d)
    ensures c == d
  {
    if b != multiset{} {
      var y :| y in b;
      assert |b - multiset{y}| == 0;
      assert b == multiset{y};
    }
  }

  /** The reference leaves no choice for a key that never holds two values. */
  lemma {:induction false} StepsDeterministic(es: seq<Edit>, b: Values, c: Values, d: Values)
    requires SingleValued(es, b)
    requires Steps(es, b, c) && Steps(es, b, d)
    ensures c == d
  {
    if |es| > 0 {
      var m :| Step(es[0], b, m) && Steps(es[1..], m, c);
      var n :| Step(es[0], b, n) && Steps(es[1..], n, d);
      StepDeterministic(es[0], b, m, n);
      StepsDeterministic(es[1..], m, c, d);
    }
  }

  // ------------------------------------------------- truthful guarantees

  /** The promise behind the guaranteed flag: the edit finds what it updates or removes. */
  ghost predicate Effective(e: Edit, b: Values) {
    match e.op
    case INSERT => true
    case UPSERT => b != multiset{}
    case REMOVE_KEY => b != multiset{}
    case REMOVE_KV => e.value in b
  }

  /** Every guaranteed edit keeps its promise, whatever values earlier edits picked. */
  ghost predicate Truthful(es: seq<Edit>, b: Values) {
    |es| > 0 ==>
      && (es[0].guaranteed ==> Effective(es[0], b))
      && (forall m :: Step(es[0], b, m) ==> Truthful(es[1..], m))
  }

  function Deltas(es: seq<Edit>): int {
    if |es| == 0 then 0 else es[0].Delta() + Deltas(es[1..])
  }

  lemma {:induction false} DeltasConcat(a: seq<Edit>, b: seq<Edit>)
    ensures Deltas(a + b) == Deltas(a) + Deltas(b)
  {
    if |a| == 0 {
      assert a + b == b;
    } else {
      assert (a + b)[1..] == a[1..] + b;
      DeltasConcat(a[1..], b);
    }
  }

  lemma StepDelta(e: Edit, b: Values, c: Values)
    requires Effective(e, b) && Step(e, b, c)
    ensures |c| == |b| + e.Delta()
  {
  }

  predicate AllGuaranteed(es: seq<Edit>) {
    forall i :: 0 <= i < |es| ==> es[i].guaranteed
  }

  lemma {:induction false} StepsDelta(es: seq<Edit>, b: Values, c: Values)
    requires AllGuaranteed(es) && Truthful(es, b) && Steps(es, b, c)
    ensures |c| == |b| + Deltas(es)
  {
    if |es| > 0 {
      var m :| Step(es[0], b, m) && Steps(es[1..], m, c);
      StepDelta(es[0], b, m);
      StepsDelta(es[1..], m, c);
    }
  }

  lemma {:induction false} TruthfulAfter(a: seq<Edit>, d: seq<Edit>, b: Values, m: Values)
    requires Truthful(a + d, b) && Steps(a, b, m)
    ensures Truthful(d, m)
  {
    if |a| == 0 {
      assert a + d == d;
    } else {
      assert (a + d)[1..] == a[1..] + d;
      var x :| Step(a[0], b, x) && Steps(a[1..], x, m);
      assert Step((a + d)[0], b, x);
      TruthfulAfter(a[1..], d, x, m);
    }
  }

  lemma {:induction false} TruthfulPrefix(a: seq<Edit>, d: seq<Edit>, b: Values)
    requires Truthful(a + d, b)
    ensures Truthful(a, b)
  {
    if |a| > 0 {
      assert (a + d)[1..] == a[1..] + d;
      forall m | Step(a[0], b, m)
        ensures Truthful(a[1..], m)
      {
        assert Step((a + d)[0], b, m);
        TruthfulPrefix(a[1..], d, m);
      }
    }
  }
}
