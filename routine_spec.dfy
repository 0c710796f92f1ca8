/**
 * What one `Pump` of a routine does, as a function of the enumerators and the
 * routine's state, for both lineages of the library: `AsyncRoutine` (newer)
 * and `Coroutine` (older). They differ in one branch only: a plain exception
 * that yields an empty object trace is wrapped in an UnhandledCoroutineException
 * by the newer one and rethrown unchanged by the older one.
 */
module RoutineSpec {
  import opened Wrappers
  import opened CoroutineExceptions
  import opened Producers
  import opened ObjectTraces

  datatype Lineage = Async | Legacy

  /**
   * A routine: its stack of enumerators with the top first (the order in which
   * a `Stack` enumerates), the enumerators popped so far in pop order, and the
   * stored return value.
   */
  datatype RoutineState = RoutineState(stack: seq<Id>, finished: seq<Id>, returnValue: Value)
  {
    predicate IsDone() {
      stack == []
    }
  }

  /** The state the constructor leaves: the given enumerator alone on the stack. */
  function Initial(enumerator: Id): (st: RoutineState)
    ensures st.stack == [enumerator] && st.finished == [] && st.returnValue == Null
    ensures !st.IsDone()
  {
    RoutineState([enumerator], [], Null)
  }

  predicate Fits(e: seq<Producer>, st: RoutineState) {
    IdsIn(e, st.stack) && IdsIn(e, st.finished)
  }

  const PumpAssertMessage := "Assert hit in Coroutine!"

  /** A pump either throws (the routine's state is then unchanged) or returns whether it must be called again. */
  datatype PumpOutcome =
    | Threw(error: Exn, entries: seq<Producer>)
    | Pumped(entries: seq<Producer>, state: RoutineState, more: bool)

  /** The exception a pump throws when the top enumerator's `MoveNext` throws `error`. */
  function WrapFault(error: Exn, objectTrace: seq<ClrType>, lineage: Lineage): Exn {
    if error.IsCoroutineException() then
      if objectTrace == [] then error
      else match error.ObjectTrace()
        // Enumerable.Concat refuses the null trace of an UnhandledCoroutineException
        case None => ArgumentNull
        case Some(inner) => NewCoroutineException(objectTrace + inner, error.InnerException())
    else if objectTrace == [] then
      if lineage == Async then NewUnhandledCoroutineException(error) else error
    else NewCoroutineException(objectTrace, error)
  }

  /** One `Pump` of a routine. */
  function PumpSpec(e: seq<Producer>, st: RoutineState, lineage: Lineage): (o: PumpOutcome)
    requires Closed(e) && Fits(e, st)
    ensures |o.entries| == |e| && Closed(o.entries)
    ensures ScriptsOf(o.entries) == ScriptsOf(e)
    ensures o.Pumped? ==> Fits(o.entries, o.state)
  {
    if st.stack == [] || st.returnValue != Null then Threw(AssertFailed(PumpAssertMessage), e)
    else
      var top := st.stack[0];
      var step := Advance(e[top]);
      var worker := step.1;
      AdvanceKeepsClosed(e, top);
      var e' := e[top := worker];
      assert ScriptsOf(e') == ScriptsOf(e);
      match step.0
      case Raised(error) =>
        Threw(WrapFault(error, ObjectTraceOf(Owners(e, st.finished + st.stack)), lineage), e')
      case Moved(more) =>
        var popped := if more then st.stack else st.stack[1..];
        var finished := if more then st.finished else st.finished + [top];
        var pushed := if worker.current.Enumerator? then [worker.current.id] else [];
        var stack := pushed + popped;
        assert stack == pushed + popped;
        Pumped(e', RoutineState(stack, finished, if stack == [] then worker.current else st.returnValue), stack != [])
  }

  /** What one pump does: to the routine, to its stack and to the entries. */
  lemma PumpProperties(e: seq<Producer>, st: RoutineState, lineage: Lineage)
    requires Closed(e) && Fits(e, st)
    // the assertions: a done routine, or one holding a return value, is not pumped
    ensures (st.IsDone() || st.returnValue != Null) ==> PumpSpec(e, st, lineage) == Threw(AssertFailed(PumpAssertMessage), e)
    // only the top enumerator is advanced
    ensures !st.IsDone() ==> forall i :: 0 <= i < |e| && i != st.stack[0] ==> PumpSpec(e, st, lineage).entries[i] == e[i]
    ensures var o := PumpSpec(e, st, lineage);
            o.Pumped? ==> (!st.IsDone() && st.returnValue == Null &&
            // it returns true exactly when the routine is not done afterwards
            (o.more <==> !o.state.IsDone()) &&
            // at most one pop and at most one push; the entries below the top are untouched
            |st.stack| - 1 <= |o.state.stack| <= |st.stack| + 1 &&
            (exists pushed :: |pushed| <= 1 && (o.state.stack == pushed + st.stack || o.state.stack == pushed + st.stack[1..])) &&
            // the finished list only grows, by the popped enumerator
            (o.state.finished == st.finished ||
             (o.state.finished == st.finished + [st.stack[0]] && o.entries[st.stack[0]].cursor >= |e[st.stack[0]].script|)) &&
            // the return value is captured, from `Current` of the enumerator just advanced, exactly when the stack empties
            (o.state.IsDone() ==> o.state.returnValue == o.entries[st.stack[0]].current && !o.state.returnValue.Enumerator?) &&
            (!o.state.IsDone() ==> o.state.returnValue == Null))
  {
    if !st.IsDone() && st.returnValue == Null {
      var top := st.stack[0];
      var step := Advance(e[top]);
      if step.0.Moved? {
        var popped := if step.0.more then st.stack else st.stack[1..];
        var pushed := if step.1.current.Enumerator? then [step.1.current.id] else [];
        assert PumpSpec(e, st, lineage).state.stack == pushed + popped;
      }
    }
  }

  /** A pump that throws leaves the routine as it was; the trace decides what is thrown. */
  lemma FaultOutcome(e: seq<Producer>, st: RoutineState, lineage: Lineage)
    requires Closed(e) && Fits(e, st) && !st.IsDone() && st.returnValue == Null
    requires Advance(e[st.stack[0]]).0.Raised?
    ensures var cause := Advance(e[st.stack[0]]).0.error;
            var owners := Owners(e, st.finished + st.stack);
            var trace := ObjectTraceOf(owners);
            var o := PumpSpec(e, st, lineage);
            o.Threw? &&
            // no enumerator has an owner: a coroutine exception passes through; a plain one is wrapped (newer) or passes (older)
            ((forall i :: 0 <= i < |owners| ==> owners[i] == None) ==>
               o.error == (if !cause.IsCoroutineException() && lineage == Async then Unhandled(cause) else cause)) &&
            // some enumerator has an owner: the trace is non-empty, newest owner first, and leads the new trace
            ((exists i :: 0 <= i < |owners| && owners[i].Some?) ==>
               trace != [] && NoAdjacentRepeats(trace) &&
               (!cause.IsCoroutineException() ==> o.error == Traced(trace, cause)) &&
               (cause.Traced? ==> o.error == Traced(trace + cause.objectTrace, cause.inner)) &&
               (cause.Unhandled? ==> o.error == ArgumentNull))
  {
    var owners := Owners(e, st.finished + st.stack);
    ObjectTraceShape(owners);
  }

  // ---------------------------------------------------------------------------
  // Driving a routine to completion: the loop `while (coroutine.Pump()) { }`.

  /** A stack whose ids decrease from the top down: in a well-founded arena every push keeps this. */
  predicate StackWf(e: seq<Producer>, stack: seq<Id>) {
    IdsIn(e, stack) && forall i, j :: 0 <= i < j < |stack| ==> stack[i] > stack[j]
  }

  /** A routine that may be pumped again, over a well-founded arena. */
  predicate Runnable(e: seq<Producer>, st: RoutineState) {
    Wf(e) && Closed(e) && StackWf(e, st.stack) && IdsIn(e, st.finished) && !st.IsDone() && st.returnValue == Null
  }

  /** The pumps a stack still costs at most. */
  function Potential(e: seq<Producer>, stack: seq<Id>): nat
    requires Wf(e) && StackWf(e, stack)
    decreases |stack|
  {
    if stack == [] then 0
    else
      WfClosed(e);
      Rem(ScriptsOf(e), e[stack[0]], stack[0]) + Potential(e, stack[1..])
  }

  lemma {:induction false} PotentialFrame(e: seq<Producer>, e': seq<Producer>, stack: seq<Id>)
    requires Wf(e) && Wf(e') && ScriptsOf(e') == ScriptsOf(e) && StackWf(e, stack)
    requires forall i :: 0 <= i < |stack| ==> e'[stack[i]] == e[stack[i]]
    ensures StackWf(e', stack) && Potential(e', stack) == Potential(e, stack)
    decreases |stack|
  {
    if stack != [] {
      PotentialFrame(e, e', stack[1..]);
    }
  }

  lemma PotentialPush(e: seq<Producer>, q: Id, stack: seq<Id>)
    requires Wf(e) && StackWf(e, stack) && q < |e| && forall i :: 0 <= i < |stack| ==> q > stack[i]
    ensures StackWf(e, [q] + stack)
    ensures Potential(e, [q] + stack) <= Full(ScriptsOf(e), q) + Potential(e, stack)
  {
    WfClosed(e);
    RemBelowFull(ScriptsOf(e), e[q], q);
    assert ([q] + stack)[1..] == stack;
  }

  /** The top enumerator yields: its cost drops by one plus the cost of what it pushes. */
  lemma YieldDecreases(e: seq<Producer>, stack: seq<Id>)
    requires Wf(e) && StackWf(e, stack) && stack != [] && Advance(e[stack[0]]).0 == Moved(true)
    ensures var p' := Advance(e[stack[0]]).1;
            var e' := e[stack[0] := p'];
            var stack' := (if p'.current.Enumerator? then [p'.current.id] else []) + stack;
            Wf(e') && StackWf(e', stack') && Potential(e', stack') < Potential(e, stack)
  {
    WfClosed(e);
    var top, rest := stack[0], stack[1..];
    var ss := ScriptsOf(e);
    var p := e[top];
    var p' := Advance(p).1;
    var e' := e[top := p'];
    AdvanceKeepsWf(e, top);
    AdvanceYieldRem(ss, p, top);
    assert StackWf(e, rest);
    PotentialFrame(e, e', rest);
    assert StackWf(e', stack);
    assert Potential(e', stack) == Rem(ss, p', top) + Potential(e', rest);
    if p'.current.Enumerator? {
      assert StepAbove(ss[top][p.cursor], top, |e|);
      PotentialPush(e', p'.current.id, stack);
    } else {
      assert [] + stack == stack;
    }
  }

  /** The top enumerator is exhausted: it is popped and its cost is at least one more than what it re-pushes. */
  lemma ExhaustedDecreases(e: seq<Producer>, stack: seq<Id>)
    requires Wf(e) && StackWf(e, stack) && stack != [] && Advance(e[stack[0]]).0 == Moved(false)
    ensures var p := e[stack[0]];
            var stack' := (if p.current.Enumerator? then [p.current.id] else []) + stack[1..];
            StackWf(e, stack') && Potential(e, stack') < Potential(e, stack)
  {
    WfClosed(e);
    var top, rest := stack[0], stack[1..];
    var p := e[top];
    assert StackWf(e, rest);
    ExhaustedRem(ScriptsOf(e), p, top);
    CurrentAbove(e, top);
    if p.current.Enumerator? {
      PotentialPush(e, p.current.id, rest);
    } else {
      assert [] + rest == rest;
    }
  }

  /** Every pump that does not throw lowers the potential of the routine's stack. */
  lemma PumpDecreases(e: seq<Producer>, st: RoutineState, lineage: Lineage)
    requires Runnable(e, st)
    ensures var o := PumpSpec(e, st, lineage);
            o.Pumped? ==>
              Wf(o.entries) && StackWf(o.entries, o.state.stack) && IdsIn(o.entries, o.state.finished) &&
              Potential(o.entries, o.state.stack) < Potential(e, st.stack)
  {
    WfClosed(e);
    var top := st.stack[0];
    var p := e[top];
    match Advance(p).0
    case Raised(_) =>
    case Moved(more) =>
      if more {
        YieldDecreases(e, st.stack);
      } else {
        ExhaustedDecreases(e, st.stack);
        assert e[top := Advance(p).1] == e;
      }
  }

  /** The run of a routine pumped until it is done or throws. */
  datatype Run = Run(entries: seq<Producer>, state: RoutineState, truePumps: nat, error: Option<Exn>)

  /**
   * Pumps until `Pump` returns false or throws. `truePumps` counts the pumps
   * that returned true; a run that does not throw ends with the routine done.
   */
  function Drive(e: seq<Producer>, st: RoutineState, lineage: Lineage): (r: Run)
    requires Runnable(e, st)
    ensures Wf(r.entries) && |r.entries| == |e| && ScriptsOf(r.entries) == ScriptsOf(e)
    ensures r.error.None? ==> r.state.IsDone() && !r.state.returnValue.Enumerator?
    ensures r.error.Some? ==> Fits(r.entries, r.state) && !r.state.IsDone() && r.state.returnValue == Null
    decreases Potential(e, st.stack)
  {
    WfClosed(e);
    PumpDecreases(e, st, lineage);
    match PumpSpec(e, st, lineage)
    case Threw(error, e') =>
      // the thrown producer's entry stays well-founded
      AdvanceKeepsWf(e, st.stack[0]);
      Run(e', st, 0, Some(error))
    case Pumped(e', st', more) =>
      if more then
        var r := Drive(e', st', lineage);
        r.(truePumps := r.truePumps + 1)
      else Run(e', st', 0, None)
  }
}
