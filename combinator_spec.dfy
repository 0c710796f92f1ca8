/**
 * What the static helpers of both lineages (`AsyncRoutine`'s statics and the
 * older `CoroutineUtils`) compute: driving a private routine to its end, the
 * typed view `Wrap<T>` gives of it, the cast `SyncWaitGet<T>` applies to its
 * return value, and the rounds of `MakeParallelGroup`.
 */
module Combinators {
  import opened Wrappers
  import opened CoroutineExceptions
  import opened Producers
  import opened RoutineSpec
  import opened Sweeps

  /** `value is T` for the reference type `t`: an object whose runtime type is `t` (the model has no subtyping). */
  predicate IsInstance(v: Value, t: ClrType) {
    v.Obj? && v.typ == t
  }

  /** The cast `(T) value` to a reference type: null and a `T` pass through unchanged, anything else is refused. */
  function Cast(v: Value, t: ClrType): (r: Result<Value, Exn>)
    ensures r.Ok? <==> v == Null || IsInstance(v, t)
    ensures r.Ok? ==> r.value == v
    ensures r.Err? ==> r.error == InvalidCast
  {
    if v == Null || IsInstance(v, t) then Ok(v) else Err(InvalidCast)
  }

  /** The fixed text that opens the older `Wrap<T>`'s assertion message; note the two spaces after the exclamation mark. */
  const WrongTypeLead := "Unexpected type returned from coroutine!  Expected '"

  /**
   * The message of the older `Wrap<T>`'s assertion: the fixed lead, the
   * expected name right after it, and the found name quoted at the very end.
   */
  function WrongTypeMessage(expected: string, found: string): (m: string)
    ensures |m| == |WrongTypeLead| + |expected| + |"' and found '"| + |found| + 1
    ensures m[..|WrongTypeLead|] == WrongTypeLead
    ensures m[|WrongTypeLead|..|WrongTypeLead| + |expected|] == expected
    ensures m[|m| - 1 - |found|..|m| - 1] == found && m[|m| - 1] == '\''
  {
    WrongTypeLead + expected + "' and found '" + found + "'"
  }

  /**
   * What `Wrap<T>` throws for a return value of type `found`: an
   * `UnexpectedTypeFromCoroutine` (newer) or an `AssertException` (older),
   * both naming the two types by their short names.
   */
  function WrongType(t: ClrType, found: ClrType, lineage: Lineage): (x: Exn)
    // never a coroutine exception, so a caller's `catch (CoroutineException)` does not take it
    ensures !x.IsCoroutineException()
    ensures x.UnexpectedType? <==> lineage == Async
    ensures x.UnexpectedType? ==> x.expected == t.name && x.found == found.name
    ensures !x.UnexpectedType? ==> x.AssertFailed? && x.message == WrongTypeMessage(t.name, found.name)
  {
    if lineage == Async then UnexpectedType(t.name, found.name)
    else AssertFailed(WrongTypeMessage(t.name, found.name))
  }

  /** An enumerator run to its end: the elements it yielded, the exception that ended it if any, and the entries it left. */
  datatype Generated = Generated(entries: seq<Producer>, values: seq<Value>, error: Option<Exn>)

  /** `n` elements `default(T)`, which is null for a reference type. */
  function Defaults(n: nat): (d: seq<Value>)
    ensures |d| == n && forall i :: 0 <= i < n ==> d[i] == Null
  {
    seq(n, _ => Null)
  }

  /** One more null after `n` of them is `n + 1` of them. */
  lemma DefaultsMore(n: nat)
    ensures Defaults(n) + [Null] == Defaults(n + 1)
  {
    assert forall i :: 0 <= i < n + 1 ==> (Defaults(n) + [Null])[i] == Defaults(n + 1)[i];
  }

  /** A new routine on `runner` may be pumped, over a well-founded arena that holds `runner`. */
  lemma InitialRunnable(e: seq<Producer>, runner: Id)
    requires Wf(e) && runner < |e|
    ensures Runnable(e, Initial(runner))
  {
    WfClosed(e);
  }

  /**
   * A new routine on `runner`, pumped until `Pump` returns false or throws.
   * The arena keeps its size and scripts; a run that ends without a fault
   * has an empty stack, a return value that is no enumerator, and `runner`
   * among the finished enumerators.
   */
  function RunOf(e: seq<Producer>, runner: Id, lineage: Lineage): (r: Run)
    requires Wf(e) && runner < |e|
    ensures Wf(r.entries) && |r.entries| == |e| && ScriptsOf(r.entries) == ScriptsOf(e)
    ensures r.error.None? ==> r.state.IsDone() && !r.state.returnValue.Enumerator? && runner in r.state.finished
  {
    InitialRunnable(e, runner);
    DriveRooted(e, Initial(runner), lineage, runner);
    Drive(e, Initial(runner), lineage)
  }

  /** `runner` is still the bottom of the stack, or has already been popped into the finished list. */
  predicate Rooted(st: RoutineState, runner: Id) {
    runner in st.finished || (st.stack != [] && st.stack[|st.stack| - 1] == runner)
  }

  /** A pump touches the bottom of the stack only by popping it into the finished list. */
  lemma PumpRooted(e: seq<Producer>, st: RoutineState, lineage: Lineage, runner: Id)
    requires Closed(e) && Fits(e, st) && Rooted(st, runner)
    ensures PumpSpec(e, st, lineage).Pumped? ==> Rooted(PumpSpec(e, st, lineage).state, runner)
  {
    if !st.IsDone() && st.returnValue == Null {
      var top := st.stack[0];
      var step := Advance(e[top]);
      if step.0.Moved? {
        var popped := if step.0.more then st.stack else st.stack[1..];
        var pushed := if step.1.current.Enumerator? then [step.1.current.id] else [];
        var st' := PumpSpec(e, st, lineage).state;
        assert st'.stack == pushed + popped;
        assert st'.finished == if step.0.more then st.finished else st.finished + [top];
        if runner !in st.finished && popped != [] {
          assert popped[|popped| - 1] == runner;
        }
      }
    }
  }

  /** Driving keeps `runner` rooted, so a run that ends without a fault has finished `runner`. */
  lemma {:induction false} DriveRooted(e: seq<Producer>, st: RoutineState, lineage: Lineage, runner: Id)
    requires Runnable(e, st) && Rooted(st, runner)
    ensures Drive(e, st, lineage).error.None? ==> runner in Drive(e, st, lineage).state.finished
    decreases Potential(e, st.stack)
  {
    WfClosed(e);
    PumpDecreases(e, st, lineage);
    PumpProperties(e, st, lineage);
    var o := PumpSpec(e, st, lineage);
    if o.Pumped? {
      PumpRooted(e, st, lineage, runner);
      if o.more {
        DriveRooted(o.entries, o.state, lineage, runner);
      }
    }
  }

  /** New routines, one on each of `runners`, in order. */
  function Initials(runners: seq<Id>): (sts: seq<RoutineState>)
    ensures |sts| == |runners| && forall i :: 0 <= i < |runners| ==> sts[i] == Initial(runners[i])
  {
    seq(|runners|, i requires 0 <= i < |runners| => Initial(runners[i]))
  }

  predicate AllIn(e: seq<Producer>, runners: seq<Id>) {
    forall i :: 0 <= i < |runners| ==> runners[i] < |e|
  }

  lemma InitialsRunnable(e: seq<Producer>, runners: seq<Id>)
    requires Wf(e) && AllIn(e, runners)
    ensures AllRunnable(e, Initials(runners))
  {
    WfClosed(e);
  }

  /**
   * `MakeParallelGroup(runners)` enumerated to its end: the rounds of new
   * routines, one on each of `runners`. No runners means no rounds; otherwise
   * a group that does not fault yields at least once.
   */
  function ParallelGroup(e: seq<Producer>, runners: seq<Id>, lineage: Lineage): (g: Group)
    requires Wf(e) && AllIn(e, runners)
    ensures Wf(g.entries) && ScriptsOf(g.entries) == ScriptsOf(e)
    ensures runners == [] <==> g == Group(e, 0, None)
    ensures g.error.None? && runners != [] ==> g.rounds >= 1
  {
    InitialsRunnable(e, runners);
    GroupSpec(e, Initials(runners), lineage)
  }

  /**
   * `Wrap<T>(runner)` enumerated to its end. Every element is null or a `T`;
   * only the last one of a fault-free enumeration can be non-null, and a
   * fault-free enumeration has that last element.
   */
  function WrapSpec(e: seq<Producer>, runner: Id, t: ClrType, lineage: Lineage): (w: Generated)
    requires Wf(e) && runner < |e|
    ensures forall i :: 0 <= i < |w.values| ==> w.values[i] == Null || IsInstance(w.values[i], t)
    ensures w.error.Some? ==> forall i :: 0 <= i < |w.values| ==> w.values[i] == Null
    ensures w.error.None? ==> |w.values| >= 1 && forall i :: 0 <= i < |w.values| - 1 ==> w.values[i] == Null
  {
    InitialRunnable(e, runner);
    var r := RunOf(e, runner, lineage);
    var v := r.state.returnValue;
    if r.error.Some? then Generated(r.entries, Defaults(r.truePumps), r.error)
    else if v != Null && !IsInstance(v, t) then Generated(r.entries, Defaults(r.truePumps), Some(WrongType(t, v.typ, lineage)))
    else Generated(r.entries, Defaults(r.truePumps) + [v], None)
  }

  /**
   * What a consumer of `Wrap<T>` sees, in terms of the private routine's
   * run: one null element for each pump that returned true; then, if no
   * pump threw, either the return value as one last element (when it is null
   * or a `T`) or the wrong-type exception (when it is any other object).
   */
  lemma WrapYields(e: seq<Producer>, runner: Id, t: ClrType, lineage: Lineage)
    requires Wf(e) && runner < |e|
    ensures Runnable(e, Initial(runner))
    ensures var w := WrapSpec(e, runner, t, lineage);
            var r := RunOf(e, runner, lineage);
            var v := r.state.returnValue;
            w.entries == r.entries &&
            r.truePumps <= |w.values| <= r.truePumps + 1 &&
            (forall i :: 0 <= i < r.truePumps ==> w.values[i] == Null) &&
            // a pump that threw ends the enumeration with that exception
            (r.error.Some? ==> w.error == r.error && |w.values| == r.truePumps) &&
            // a null return value is never refused
            (r.error.None? && v == Null ==> w.error.None? && w.values == Defaults(r.truePumps) + [Null]) &&
            // a `T` is the last element
            (r.error.None? && IsInstance(v, t) ==> w.error.None? && |w.values| == r.truePumps + 1 && w.values[r.truePumps] == v) &&
            // any other object is refused before the last element, naming both types
            (r.error.None? && v.Obj? && v.typ != t ==> w.error == Some(WrongType(t, v.typ, lineage)) && |w.values| == r.truePumps)
  {
    InitialRunnable(e, runner);
  }

  // One pump of `while (coroutine.Pump()) { }`, by what the pump does.

  /** Part way through the run `run`: `pumps` pumps returned true, and the routine is now `st` over `e`. */
  ghost predicate Driving(lineage: Lineage, run: Run, e: seq<Producer>, st: RoutineState, pumps: nat) {
    Runnable(e, st) &&
    var r := Drive(e, st, lineage);
    run == r.(truePumps := r.truePumps + pumps)
  }

  /** A pump that throws ends the run with that exception, the routine as it was. */
  lemma DriveThrew(e: seq<Producer>, st: RoutineState, lineage: Lineage)
    requires Runnable(e, st) && PumpSpec(e, st, lineage).Threw?
    ensures var o := PumpSpec(e, st, lineage);
            Drive(e, st, lineage) == Run(o.entries, st, 0, Some(o.error))
  {
    WfClosed(e);
  }

  /** A pump that returns false ends the run normally, with the state it left. */
  lemma DriveEnds(e: seq<Producer>, st: RoutineState, lineage: Lineage)
    requires Runnable(e, st) && PumpSpec(e, st, lineage).Pumped? && !PumpSpec(e, st, lineage).more
    ensures var o := PumpSpec(e, st, lineage);
            Drive(e, st, lineage) == Run(o.entries, o.state, 0, None)
  {
    WfClosed(e);
  }

  /**
   * A pump that returns true leaves a routine that may be pumped again, with
   * less potential, whose run is the rest of this one.
   */
  lemma DriveMore(e: seq<Producer>, st: RoutineState, lineage: Lineage)
    requires Runnable(e, st) && PumpSpec(e, st, lineage).Pumped? && PumpSpec(e, st, lineage).more
    ensures var o := PumpSpec(e, st, lineage);
            Runnable(o.entries, o.state) && Potential(o.entries, o.state.stack) < Potential(e, st.stack) &&
            var r := Drive(o.entries, o.state, lineage);
            Drive(e, st, lineage) == r.(truePumps := r.truePumps + 1)
  {
    WfClosed(e);
    PumpDecreases(e, st, lineage);
    PumpProperties(e, st, lineage);
    WfClosed(PumpSpec(e, st, lineage).entries);
  }

  // One round of a parallel group, by whether a pump threw.

  /** A round in which a pump throws ends the group with that exception and no completed round. */
  lemma GroupThrew(e: seq<Producer>, sts: seq<RoutineState>, lineage: Lineage)
    requires Wf(e) && AllRunnable(e, sts) && sts != []
    ensures Closed(e) && AllFit(e, sts)
    ensures var r := SweepSpec(e, sts, lineage);
            r.fault.Some? ==> GroupSpec(e, sts, lineage) == Group(r.entries, 0, Some(r.fault.value.error))
  {
    WfClosed(e);
  }

  /**
   * A round in which no pump throws drops the done routines; the rest may be
   * pumped again, with less potential in total, and the group goes on with
   * them, one round later.
   */
  lemma GroupNext(e: seq<Producer>, sts: seq<RoutineState>, lineage: Lineage)
    requires Wf(e) && AllRunnable(e, sts) && sts != []
    requires Closed(e) && AllFit(e, sts) && SweepSpec(e, sts, lineage).fault.None?
    ensures var r := SweepSpec(e, sts, lineage);
            Wf(r.entries) && AllRunnable(r.entries, Live(r.states)) && AllStackWf(e, sts) &&
            TotalPotential(r.entries, Live(r.states)) < TotalPotential(e, sts) &&
            var g := GroupSpec(r.entries, Live(r.states), lineage);
            GroupSpec(e, sts, lineage) == Group(g.entries, g.rounds + 1, g.error)
  {
    GroupLive(e, sts, lineage);
  }

  /** After a round that did not throw, the routines not done may be pumped, and have less potential in all. */
  lemma GroupLive(e: seq<Producer>, sts: seq<RoutineState>, lineage: Lineage)
    requires Wf(e) && AllRunnable(e, sts) && sts != []
    requires Closed(e) && AllFit(e, sts) && SweepSpec(e, sts, lineage).fault.None?
    ensures var r := SweepSpec(e, sts, lineage);
            Wf(r.entries) && AllRunnable(r.entries, Live(r.states)) && AllStackWf(e, sts) &&
            TotalPotential(r.entries, Live(r.states)) < TotalPotential(e, sts)
  {
    SweepDecreases(e, sts, lineage);
    SweepKeeps(e, sts, lineage);
    var r := SweepSpec(e, sts, lineage);
    TotalPotentialLive(r.entries, r.states);
    LiveRunnable(r.entries, r.states);
  }

  /** A group part way through: `rounds` rounds done, and the routines `sts` left, over the entries `e`, of the group `g0`. */
  ghost predicate Grouping(lineage: Lineage, g0: Group, e: seq<Producer>, sts: seq<RoutineState>, rounds: nat) {
    Wf(e) && AllRunnable(e, sts) && AllStackWf(e, sts) &&
    var g := GroupSpec(e, sts, lineage);
    g0 == Group(g.entries, g.rounds + rounds, g.error)
  }

  /** The group before its first round. */
  lemma GroupingStart(lineage: Lineage, e: seq<Producer>, runners: seq<Id>)
    requires Wf(e) && AllIn(e, runners)
    ensures Grouping(lineage, ParallelGroup(e, runners, lineage), e, Initials(runners), 0)
  {
    InitialsRunnable(e, runners);
  }

  /** A round that threw ends the group with that exception. */
  lemma GroupingThrew(lineage: Lineage, g0: Group, e: seq<Producer>, sts: seq<RoutineState>, rounds: nat)
    requires Grouping(lineage, g0, e, sts, rounds) && sts != []
    ensures Closed(e) && AllFit(e, sts)
    ensures var r := SweepSpec(e, sts, lineage);
            r.fault.Some? ==> g0 == Group(r.entries, rounds, Some(r.fault.value.error))
  {
    GroupThrew(e, sts, lineage);
  }

  /** A round that did not throw leaves the routines not done, one round later, with less potential. */
  lemma GroupingNext(lineage: Lineage, g0: Group, e: seq<Producer>, sts: seq<RoutineState>, rounds: nat)
    requires Grouping(lineage, g0, e, sts, rounds) && sts != []
    requires Closed(e) && AllFit(e, sts) && SweepSpec(e, sts, lineage).fault.None?
    ensures var r := SweepSpec(e, sts, lineage);
            Grouping(lineage, g0, r.entries, Live(r.states), rounds + 1) &&
            TotalPotential(r.entries, Live(r.states)) < TotalPotential(e, sts)
  {
    GroupNext(e, sts, lineage);
  }

  /** A group with no routine left is over. */
  lemma GroupingEnds(lineage: Lineage, g0: Group, e: seq<Producer>, rounds: nat)
    requires Grouping(lineage, g0, e, [], rounds)
    ensures g0 == Group(e, rounds, None)
  {
  }

  // A group of one routine, by what its first pump does.

  lemma GroupSingleThrew(e: seq<Producer>, st: RoutineState, lineage: Lineage)
    requires Runnable(e, st) && PumpSpec(e, st, lineage).Threw?
    ensures AllRunnable(e, [st])
    ensures var r := Drive(e, st, lineage);
            GroupSpec(e, [st], lineage) == Group(r.entries, 0, r.error) && r.truePumps == 0 && r.error.Some?
  {
    WfClosed(e);
    DriveThrew(e, st, lineage);
    GroupThrew(e, [st], lineage);
  }

  /** A sweep of one routine whose pump did not throw is that pump. */
  lemma SweepSingle(e: seq<Producer>, st: RoutineState, lineage: Lineage)
    requires Closed(e) && Fits(e, st) && PumpSpec(e, st, lineage).Pumped?
    ensures AllFit(e, [st])
    ensures var o := PumpSpec(e, st, lineage);
            SweepSpec(e, [st], lineage) == Sweep(o.entries, [o.state], None)
  {
    assert [st][1..] == [];
  }

  lemma GroupSingleEnds(e: seq<Producer>, st: RoutineState, lineage: Lineage)
    requires Runnable(e, st) && PumpSpec(e, st, lineage).Pumped? && !PumpSpec(e, st, lineage).more
    ensures AllRunnable(e, [st])
    ensures var r := Drive(e, st, lineage);
            GroupSpec(e, [st], lineage) == Group(r.entries, 1, None) && r.truePumps == 0 && r.error.None?
  {
    WfClosed(e);
    var o := PumpSpec(e, st, lineage);
    SweepSingle(e, st, lineage);
    GroupNext(e, [st], lineage);
    DriveEnds(e, st, lineage);
    PumpProperties(e, st, lineage);
    assert Live([o.state]) == [];
  }

  lemma GroupSingleMore(e: seq<Producer>, st: RoutineState, lineage: Lineage)
    requires Runnable(e, st) && PumpSpec(e, st, lineage).Pumped? && PumpSpec(e, st, lineage).more
    ensures AllRunnable(e, [st])
    ensures var o := PumpSpec(e, st, lineage);
            AllRunnable(o.entries, [o.state]) &&
            var g := GroupSpec(o.entries, [o.state], lineage);
            GroupSpec(e, [st], lineage) == Group(g.entries, g.rounds + 1, g.error)
  {
    WfClosed(e);
    var o := PumpSpec(e, st, lineage);
    SweepSingle(e, st, lineage);
    GroupNext(e, [st], lineage);
    PumpProperties(e, st, lineage);
    assert Live([o.state]) == [o.state];
  }

  /**
   * A group of one routine yields once for each pump the routine needs: the
   * pumps that returned true, and the last one that returned false (none if
   * a pump threw).
   */
  lemma {:induction false} GroupSingle(e: seq<Producer>, st: RoutineState, lineage: Lineage)
    requires Runnable(e, st)
    ensures AllRunnable(e, [st])
    ensures var g := GroupSpec(e, [st], lineage);
            var r := Drive(e, st, lineage);
            g.entries == r.entries && g.error == r.error &&
            (r.error.None? ==> g.rounds == r.truePumps + 1) &&
            (r.error.Some? ==> g.rounds == r.truePumps)
    decreases Potential(e, st.stack)
  {
    WfClosed(e);
    var o := PumpSpec(e, st, lineage);
    if o.Threw? {
      GroupSingleThrew(e, st, lineage);
    } else if !o.more {
      GroupSingleEnds(e, st, lineage);
    } else {
      GroupSingleMore(e, st, lineage);
      DriveMore(e, st, lineage);
      GroupSingle(o.entries, o.state, lineage);
    }
  }

  /** A group ends within as many rounds as its routines' producers have steps left. */
  lemma {:induction false} GroupRoundsBound(e: seq<Producer>, sts: seq<RoutineState>, lineage: Lineage)
    requires Wf(e) && AllRunnable(e, sts)
    ensures AllStackWf(e, sts)
    ensures GroupSpec(e, sts, lineage).rounds <= TotalPotential(e, sts)
    decreases TotalPotential(e, sts)
  {
    assert AllStackWf(e, sts);
    if sts != [] {
      WfClosed(e);
      var r := SweepSpec(e, sts, lineage);
      if r.fault.None? {
        GroupNext(e, sts, lineage);
        GroupRoundsBound(r.entries, Live(r.states), lineage);
      } else {
        GroupThrew(e, sts, lineage);
      }
    }
  }
}
