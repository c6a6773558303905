/**
 * Whole histories: a tree is opened, edited and queried, written, read back,
 * and opened again, any number of times.
 */
module Sessions {
  import opened Types
  import opened Multimap
  import opened Tree
  import opened Meaning
  import opened Lookup
  import opened Contents
  import opened Counting
  import opened Seeking
  import opened Splitting
  import opened Flushing
  import opened Trust
  import opened Writing
  import opened Reloading
  import Leaves

  // ---------------------------------------------------------------- sessions

  /** The tree after every session was written and read back; None when a write threw. */
  function History(cfg: Config, n: Node, sessions: seq<seq<Call>>): Option<Node>
    decreases |sessions|
  {
    if |sessions| == 0 then Some(n)
    else
      var w := Write(cfg, Run(n, sessions[0]).0);
      if w.None? then None else History(cfg, Reloaded(w.value), sessions[1..])
  }

  function Answers(cfg: Config, n: Node, sessions: seq<seq<Call>>): seq<Option<Value>>
    decreases |sessions|
  {
    if |sessions| == 0 then []
    else
      var (t, rs) := Run(n, sessions[0]);
      var w := Write(cfg, t);
      if w.None? then rs else rs + Answers(cfg, Reloaded(w.value), sessions[1..])
  }

  function AllCalls(sessions: seq<seq<Call>>): seq<Call> {
    if |sessions| == 0 then [] else sessions[0] + AllCalls(sessions[1..])
  }

  /** Each tree that is written can be flushed as it stands. */
  ghost predicate AllWritable(cfg: Config, n: Node, sessions: seq<seq<Call>>)
    decreases |sessions|
  {
    |sessions| > 0 ==>
      var t := Run(n, sessions[0]).0;
      && Writable(cfg, t)
      && (Write(cfg, t).Some? ==> AllWritable(cfg, Reloaded(Write(cfg, t).value), sessions[1..]))
  }

  /** Runs of the reference follow one another. */
  lemma {:induction false} ExplainsJoin(k: Key, a: seq<Call>, d: seq<Call>,
                                        ra: seq<Option<Value>>, rd: seq<Option<Value>>,
                                        b: Values, m: Values, c: Values)
    requires |ra| == |a| && |rd| == |d|
    requires Explains(k, a, ra, b, m) && Explains(k, d, rd, m, c)
    ensures Explains(k, a + d, ra + rd, b, c)
    decreases |a|
  {
    hide Steps, Fits;
    var s, r := a + d, ra + rd;
    if |a| == 0 {
      assert s == d && r == rd;
    } else {
      assert s[0] == a[0] && r[0] == ra[0] && s[1..] == a[1..] + d && r[1..] == ra[1..] + rd;
      match a[0]
      case Change(e) =>
        var x :| Steps(If(e, k), b, x) && Explains(k, a[1..], ra[1..], x, m);
        ExplainsJoin(k, a[1..], d, ra[1..], rd, x, m, c);
      case Query(_) =>
        ExplainsJoin(k, a[1..], d, ra[1..], rd, b, m, c);
    }
  }

  /** One session: what is read back was reached by a run of the reference from what was opened. */
  lemma SessionExplained(cfg: Config, n: Node, calls: seq<Call>, k: Key, c: Values) returns (b: Values)
    requires Ordered(n, None, None) && Parsed(n)
    requires Writable(cfg, Run(n, calls).0) && Write(cfg, Run(n, calls).0).Some?
    requires Denotes(Reloaded(Write(cfg, Run(n, calls).0).value), k, c)
    ensures |Run(n, calls).1| == |calls|
    ensures Denotes(n, k, b) && Explains(k, calls, Run(n, calls).1, b, c)
    ensures Ordered(Reloaded(Write(cfg, Run(n, calls).0).value), None, None)
    ensures Parsed(Reloaded(Write(cfg, Run(n, calls).0).value))
  {
    hide Run, Write, Reloaded, Writable, Ordered, Parsed, Denotes, Explains;
    var t := Run(n, calls).0;
    RunOrdered(n, calls);
    WriteMeans(cfg, t);
    var w := Write(cfg, t).value;
    ReloadedOrdered(w, None, None);
    ReloadedParsed(w);
    ReloadedSame(w, None, None, k, c);
    assert Within(None, None, k);
    assert Denotes(t, k, c);
    b := RunExplained(n, calls, k, c);
  }

  /**
   * Over any number of sessions the tree follows the plain multimap: every bag
   * it stands for at the end is reached by one run of the reference that took
   * all edits of all sessions in call order and agrees with every answer.
   */
  lemma {:induction false} HistoryExplained(cfg: Config, n: Node, sessions: seq<seq<Call>>, k: Key, c: Values)
    returns (b: Values)
    requires Ordered(n, None, None) && Parsed(n)
    requires AllWritable(cfg, n, sessions) && History(cfg, n, sessions).Some?
    requires Denotes(History(cfg, n, sessions).value, k, c)
    ensures |Answers(cfg, n, sessions)| == |AllCalls(sessions)|
    ensures Denotes(n, k, b) && Explains(k, AllCalls(sessions), Answers(cfg, n, sessions), b, c)
    decreases |sessions|
  {
    hide Run, Write, Reloaded, Writable, Ordered, Parsed, Denotes;
    if |sessions| == 0 {
      b := c;
    } else {
      var t := Run(n, sessions[0]).0;
      var r := Reloaded(Write(cfg, t).value);
      var d := DenotesSome(r, k);
      var x := SessionExplained(cfg, n, sessions[0], k, d);
      var m := HistoryExplained(cfg, r, sessions[1..], k, c);
      b := SessionExplained(cfg, n, sessions[0], k, m);
      ExplainsJoin(k, sessions[0], AllCalls(sessions[1..]), Run(n, sessions[0]).1, Answers(cfg, r, sessions[1..]),
                   b, m, c);
    }
  }
}
