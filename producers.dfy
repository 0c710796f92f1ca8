/**
 * Step-producers: the `IEnumerator` objects a routine drives. Each producer is
 * an entry of an arena, addressed by its id, so that a routine can re-examine
 * `Current` of the very object it has just advanced. A producer runs a finite
 * script of steps; `Current` keeps the last yielded value once the script is
 * exhausted, as compiler-generated iterators do, and an iterator that has
 * thrown is finished.
 */
module Producers {
  import opened Wrappers
  import opened CoroutineExceptions

  type Id = nat

  /** What `Current` can hold: null, an ordinary object, or another producer. */
  datatype Value = Null | Obj(typ: ClrType, payload: int) | Enumerator(id: Id)

  /** One call of `MoveNext`: yield a value, or throw. */
  datatype Step = Yield(value: Value) | Throw(error: Exn)

  /**
   * An enumerator: its script, how many steps `MoveNext` has consumed, its
   * `Current`, and the runtime type of the object that created it (the captured
   * `this` that the object trace reports), when there is one.
   */
  datatype Producer = Producer(script: seq<Step>, cursor: nat, current: Value, owner: Option<ClrType>)

  /** What `MoveNext` did: returned a boolean, or threw. */
  datatype MoveResult = Moved(more: bool) | Raised(error: Exn)

  /** A producer that has not been advanced yet. */
  function Fresh(script: seq<Step>, owner: Option<ClrType>): Producer {
    Producer(script, 0, Null, owner)
  }

  /** `MoveNext` on one producer: the result and the producer afterwards. */
  function Advance(p: Producer): (r: (MoveResult, Producer))
    ensures r.1.script == p.script && r.1.owner == p.owner
    ensures r.0 == Moved(false) <==> p.cursor >= |p.script|
    ensures r.0 == Moved(false) ==> r.1 == p
    ensures r.0 == Moved(true) ==>
              p.cursor < |p.script| && p.script[p.cursor] == Yield(r.1.current) && r.1.cursor == p.cursor + 1
    ensures r.0.Raised? ==>
              p.cursor < |p.script| && p.script[p.cursor] == Throw(r.0.error) &&
              r.1.cursor == |p.script| && r.1.current == p.current
  {
    if p.cursor >= |p.script| then (Moved(false), p)
    else match p.script[p.cursor]
      case Yield(v) => (Moved(true), p.(cursor := p.cursor + 1, current := v))
      case Throw(e) => (Raised(e), p.(cursor := |p.script|))
  }

  /** The heap of enumerators. */
  class Arena {
    var entries: seq<Producer>

    constructor (entries: seq<Producer>)
      ensures this.entries == entries
    {
      this.entries := entries;
    }

    /** `MoveNext` on the enumerator `id`: only that entry changes. */
    method MoveNext(id: Id) returns (r: MoveResult)
      requires id < |entries|
      modifies this
      ensures r == Advance(old(entries)[id]).0
      ensures entries == old(entries)[id := Advance(old(entries)[id]).1]
    {
      var step := Advance(entries[id]);
      r := step.0;
      entries := entries[id := step.1];
    }
  }

  // ---------------------------------------------------------------------------
  // Closed arenas: every producer a script or a `Current` refers to exists.

  predicate ValueIn(v: Value, n: nat) {
    v.Enumerator? ==> v.id < n
  }

  predicate StepIn(s: Step, n: nat) {
    s.Yield? ==> ValueIn(s.value, n)
  }

  predicate Closed(e: seq<Producer>) {
    forall i :: 0 <= i < |e| ==>
      ValueIn(e[i].current, |e|) && forall k :: 0 <= k < |e[i].script| ==> StepIn(e[i].script[k], |e|)
  }

  lemma AdvanceKeepsClosed(e: seq<Producer>, id: Id)
    requires Closed(e) && id < |e|
    ensures Closed(e[id := Advance(e[id]).1])
    ensures ValueIn(Advance(e[id]).1.current, |e|)
  {
  }

  // ---------------------------------------------------------------------------
  // Well-founded arenas: a producer yields only producers with larger ids, so
  // nesting is acyclic, and `Current` is a value the script has yielded.

  predicate StepAbove(s: Step, lo: Id, n: nat) {
    s.Yield? && s.value.Enumerator? ==> lo < s.value.id < n
  }

  predicate ScriptAbove(s: seq<Step>, lo: Id, n: nat) {
    forall k :: 0 <= k < |s| ==> StepAbove(s[k], lo, n)
  }

  predicate Acyclic(ss: seq<seq<Step>>) {
    forall i :: 0 <= i < |ss| ==> ScriptAbove(ss[i], i, |ss|)
  }

  /** `Current` is null or a value the producer has yielded. */
  predicate CurrentYielded(p: Producer) {
    p.cursor <= |p.script| &&
    (p.current == Null || exists k :: 0 <= k < p.cursor && p.script[k] == Yield(p.current))
  }

  function ScriptsOf(e: seq<Producer>): (ss: seq<seq<Step>>)
    ensures |ss| == |e|
    ensures forall i :: 0 <= i < |e| ==> ss[i] == e[i].script
  {
    seq(|e|, i requires 0 <= i < |e| => e[i].script)
  }

  predicate Wf(e: seq<Producer>) {
    Acyclic(ScriptsOf(e)) && forall i :: 0 <= i < |e| ==> CurrentYielded(e[i])
  }

  lemma WfClosed(e: seq<Producer>)
    requires Wf(e)
    ensures Closed(e)
  {
    forall i | 0 <= i < |e|
      ensures ValueIn(e[i].current, |e|)
    {
      if e[i].current != Null {
        var k :| 0 <= k < e[i].cursor && e[i].script[k] == Yield(e[i].current);
        assert StepAbove(ScriptsOf(e)[i][k], i, |e|);
      }
    }
  }

  /** An enumerator held in `Current` of a well-founded producer has a larger id. */
  lemma CurrentAbove(e: seq<Producer>, id: Id)
    requires Wf(e) && id < |e|
    ensures e[id].current.Enumerator? ==> id < e[id].current.id < |e|
  {
    if e[id].current.Enumerator? {
      var k :| 0 <= k < e[id].cursor && e[id].script[k] == Yield(e[id].current);
      assert StepAbove(ScriptsOf(e)[id][k], id, |e|);
    }
  }

  lemma AdvanceKeepsWf(e: seq<Producer>, id: Id)
    requires Wf(e) && id < |e|
    ensures var e' := e[id := Advance(e[id]).1];
            Wf(e') && ScriptsOf(e') == ScriptsOf(e)
  {
    var e' := e[id := Advance(e[id]).1];
    assert ScriptsOf(e') == ScriptsOf(e);
    var p, p' := e[id], e'[id];
    if Advance(p).0 == Moved(true) {
      assert p'.script[p.cursor] == Yield(p'.current);
    } else if Advance(p).0.Raised? && p.current != Null {
      var k :| 0 <= k < p.cursor && p.script[k] == Yield(p.current);
      assert k < p'.cursor && p'.script[k] == Yield(p'.current);
    }
  }

  // ---------------------------------------------------------------------------
  // Potential: an upper bound on the pumps a producer still costs a routine.
  // It decreases with every pump that does not throw, which is what makes the
  // blocking loops of the combinators terminate.

  /** Pumps a producer costs from its first step: every step, the final `false`, and twice its nested producers. */
  function Full(ss: seq<seq<Step>>, q: Id): nat
    requires Acyclic(ss) && q < |ss|
    decreases |ss| - q, 1
  {
    |ss[q]| + 1 + 2 * SumNested(ss, ss[q], q)
  }

  /** The full cost of the producers a stretch of script yields. */
  function SumNested(ss: seq<seq<Step>>, s: seq<Step>, lo: Id): nat
    requires Acyclic(ss) && ScriptAbove(s, lo, |ss|)
    decreases |ss| - lo, 0, |s|
  {
    if s == [] then 0
    else (if s[0].Yield? && s[0].value.Enumerator? then Full(ss, s[0].value.id) else 0) + SumNested(ss, s[1..], lo)
  }

  /** The cost of pushing a value: the full cost of a producer, nothing for anything else. */
  function Cost(ss: seq<seq<Step>>, v: Value): nat
    requires Acyclic(ss) && ValueIn(v, |ss|)
  {
    if v.Enumerator? then Full(ss, v.id) else 0
  }

  /** The value `Current` holds once the rest of the script has run, if nothing throws. */
  function LastYield(s: seq<Step>, current: Value): (v: Value)
    decreases |s|
  {
    if s == [] then current else LastYield(s[1..], if s[0].Yield? then s[0].value else current)
  }

  lemma {:induction false} LastYieldFrom(s: seq<Step>, current: Value)
    ensures LastYield(s, current) == current || exists k :: 0 <= k < |s| && s[k] == Yield(LastYield(s, current))
    decreases |s|
  {
    if s != [] {
      var next := if s[0].Yield? then s[0].value else current;
      LastYieldFrom(s[1..], next);
      if LastYield(s[1..], next) != next {
        var k :| 0 <= k < |s[1..]| && s[1..][k] == Yield(LastYield(s[1..], next));
        assert s[k + 1] == Yield(LastYield(s, current));
      }
    }
  }

  /** The producer's own remaining cost: the steps left, the final `false`, their nested producers, and the re-push of `Current` after the final `false`. */
  function Rem(ss: seq<seq<Step>>, p: Producer, id: Id): nat
    requires Acyclic(ss) && id < |ss| && p.script == ss[id] && p.cursor <= |p.script| && ValueIn(p.current, |ss|)
  {
    LastYieldIn(p.script[p.cursor..], p.current, |ss|);
    (|p.script| - p.cursor) + 1 + SumNested(ss, p.script[p.cursor..], id) + Cost(ss, LastYield(p.script[p.cursor..], p.current))
  }

  lemma {:induction false} LastYieldIn(s: seq<Step>, current: Value, n: nat)
    requires ValueIn(current, n) && forall k :: 0 <= k < |s| ==> StepIn(s[k], n)
    ensures ValueIn(LastYield(s, current), n)
    decreases |s|
  {
    if s != [] {
      LastYieldIn(s[1..], if s[0].Yield? then s[0].value else current, n);
    }
  }

  lemma {:induction false} SumNestedSuffix(ss: seq<seq<Step>>, s: seq<Step>, lo: Id, c: nat)
    requires Acyclic(ss) && ScriptAbove(s, lo, |ss|) && c <= |s|
    ensures SumNested(ss, s[c..], lo) <= SumNested(ss, s, lo)
    decreases c
  {
    if c > 0 {
      assert s[1..][c - 1..] == s[c..];
      SumNestedSuffix(ss, s[1..], lo, c - 1);
    }
  }

  lemma {:induction false} SumNestedElement(ss: seq<seq<Step>>, s: seq<Step>, lo: Id, k: nat)
    requires Acyclic(ss) && ScriptAbove(s, lo, |ss|) && k < |s| && s[k].Yield? && ValueIn(s[k].value, |ss|)
    ensures Cost(ss, s[k].value) <= SumNested(ss, s, lo)
    decreases k
  {
    if k > 0 {
      SumNestedElement(ss, s[1..], lo, k - 1);
    }
  }

  /** A producer in any reachable state costs no more than it did from its first step. */
  lemma RemBelowFull(ss: seq<seq<Step>>, p: Producer, id: Id)
    requires Acyclic(ss) && id < |ss| && p.script == ss[id] && CurrentYielded(p)
    ensures ValueIn(p.current, |ss|)
    ensures Rem(ss, p, id) <= Full(ss, id)
  {
    var s, c := p.script, p.cursor;
    if p.current != Null {
      var k :| 0 <= k < c && s[k] == Yield(p.current);
      assert StepAbove(ss[id][k], id, |ss|);
    }
    SumNestedSuffix(ss, s, id, c);
    var v := LastYield(s[c..], p.current);
    LastYieldFrom(s[c..], p.current);
    if v != p.current {
      var k :| 0 <= k < |s[c..]| && s[c..][k] == Yield(v);
      assert s[c + k] == Yield(v);
      SumNestedElement(ss, s, id, c + k);
    } else if v != Null {
      var k :| 0 <= k < c && s[k] == Yield(p.current);
      SumNestedElement(ss, s, id, k);
    }
  }

  /** A `MoveNext` that yields `v` lowers the producer's cost by one plus the cost of `v`. */
  lemma AdvanceYieldRem(ss: seq<seq<Step>>, p: Producer, id: Id)
    requires Acyclic(ss) && id < |ss| && p.script == ss[id] && CurrentYielded(p)
    requires Advance(p).0 == Moved(true)
    ensures ValueIn(p.current, |ss|) && ValueIn(Advance(p).1.current, |ss|) && CurrentYielded(Advance(p).1)
    ensures Rem(ss, Advance(p).1, id) + 1 + Cost(ss, Advance(p).1.current) == Rem(ss, p, id)
  {
    RemBelowFull(ss, p, id);
    var p' := Advance(p).1;
    assert p.script[p.cursor] == Yield(p'.current);
    assert StepAbove(ss[id][p.cursor], id, |ss|);
    assert p.script[p.cursor..][1..] == p'.script[p'.cursor..];
  }

  /** An exhausted producer costs exactly its final `false` and the re-push of its `Current`. */
  lemma ExhaustedRem(ss: seq<seq<Step>>, p: Producer, id: Id)
    requires Acyclic(ss) && id < |ss| && p.script == ss[id] && CurrentYielded(p)
    requires p.cursor >= |p.script|
    ensures ValueIn(p.current, |ss|)
    ensures Rem(ss, p, id) == 1 + Cost(ss, p.current)
  {
    RemBelowFull(ss, p, id);
    assert p.script[p.cursor..] == [];
  }
}
