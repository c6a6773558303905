/** What edits may make of a bag, computed: the finite set of the bags that the reference can reach. */
module Reaching {
  import opened Types
  import opened Multimap

  /** All bags that one edit may leave. */
  function After(e: Edit, b: Values): set<Values> {
    match e.op
    case INSERT => {b + multiset{e.value}}
    case UPSERT =>
      if b == multiset{} then {multiset{e.value}} else set x | x in b :: b - multiset{x} + multiset{e.value}
    case REMOVE_KEY => if b == multiset{} then {b} else set x | x in b :: b - multiset{x}
    case REMOVE_KV => {b - multiset{e.value}}
  }

  lemma AfterIs(e: Edit, b: Values, c: Values)
    ensures c in After(e, b) <==> Step(e, b, c)
  {
  }

  /** All bags that edits of one key may leave, oldest edit first. */
  function Outcomes(es: seq<Edit>, bs: set<Values>): set<Values>
    decreases |es|
  {
    if |es| == 0 then bs else Outcomes(es[1..], set b, c | b in bs && c in After(es[0], b) :: c)
  }

  lemma {:induction false} OutcomesAre(es: seq<Edit>, bs: set<Values>, c: Values)
    ensures c in Outcomes(es, bs) <==> exists b :: b in bs && Steps(es, b, c)
    decreases |es|
  {
    hide After, Step;
    if |es| > 0 {
      var ms := set b, m | b in bs && m in After(es[0], b) :: m;
      OutcomesAre(es[1..], ms, c);
      if c in Outcomes(es, bs) {
        var m :| m in ms && Steps(es[1..], m, c);
        var b :| b in bs && m in After(es[0], b);
        AfterIs(es[0], b, m);
        StepsCons(es, b, m, c);
      }
      if b :| b in bs && Steps(es, b, c) {
        var m :| Step(es[0], b, m) && Steps(es[1..], m, c);
        AfterIs(es[0], b, m);
        assert m in ms;
      }
    }
  }
}
