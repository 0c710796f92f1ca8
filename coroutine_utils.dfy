/**
 * `CoroutineUtils`, the static helpers of the older `Coroutine`. They are the
 * helpers of `AsyncRoutine` over the `Legacy` lineage: each drives private
 * routines over the arena with `Pump` loops and is proved against the functions of
 * `Combinators`. The generators `Wrap<T>` and `MakeParallelGroup` are
 * enumerated to their end: `Wrap<T>` hands back the elements it yields, the
 * group the number of nulls it yields.
 */
module CoroutineUtils {
  import opened Wrappers
  import opened CoroutineExceptions
  import opened Producers
  import opened RoutineSpec
  import opened Sweeps
  import opened Walks
  import opened Combinators
  import opened LegacyCoroutines

  /** One `coroutine.Pump()` of a run: it ends the run, or leaves the rest of it with less potential. */
  method DrivePump(coroutine: Coroutine, arena: Arena, ghost run: Run, ghost pumps: nat) returns (r: Result<bool, Exn>)
    requires Driving(Legacy, run, arena.entries, coroutine.State(), pumps)
    modifies coroutine, arena
    ensures r.Err? ==> run == Run(arena.entries, coroutine.State(), pumps, Some(r.error))
    ensures r == Ok(false) ==> run == Run(arena.entries, coroutine.State(), pumps, None)
    ensures r == Ok(true) ==> Driving(Legacy, run, arena.entries, coroutine.State(), pumps + 1)
    ensures r == Ok(true) ==> Potential(arena.entries, coroutine.State().stack) < old(Potential(arena.entries, coroutine.State().stack))
  {
    ghost var e, st := arena.entries, coroutine.State();
    WfClosed(e);
    r := coroutine.Pump(arena);
    if r.Err? {
      DriveThrew(e, st, Legacy);
    } else if !r.value {
      DriveEnds(e, st, Legacy);
    } else {
      DriveMore(e, st, Legacy);
    }
  }

  /** `while (coroutine.Pump()) { }`, counting the pumps that returned true. */
  method PumpToEnd(coroutine: Coroutine, arena: Arena) returns (pumps: nat, error: Option<Exn>)
    requires Runnable(arena.entries, coroutine.State())
    modifies coroutine, arena
    ensures var r := Drive(old(arena.entries), old(coroutine.State()), Legacy);
            arena.entries == r.entries && coroutine.State() == r.state && pumps == r.truePumps && error == r.error
  {
    ghost var run := Drive(arena.entries, coroutine.State(), Legacy);
    pumps := 0;
    while true
      invariant Driving(Legacy, run, arena.entries, coroutine.State(), pumps)
      decreases Potential(arena.entries, coroutine.State().stack)
    {
      var r := DrivePump(coroutine, arena, run, pumps);
      if r.Err? {
        return pumps, Some(r.error);
      }
      if !r.value {
        return pumps, None;
      }
      pumps := pumps + 1;
    }
  }

  /** `SyncWait(runner)`: returns normally exactly when the private routine ran to its end. */
  method SyncWait(runner: Id, arena: Arena) returns (error: Option<Exn>)
    requires Wf(arena.entries) && runner < |arena.entries|
    modifies arena
    ensures var r := RunOf(old(arena.entries), runner, Legacy);
            arena.entries == r.entries && error == r.error
    ensures error.None? <==> RunOf(old(arena.entries), runner, Legacy).state.IsDone()
  {
    InitialRunnable(arena.entries, runner);
    var coroutine := new Coroutine(runner);
    var _, e := PumpToEnd(coroutine, arena);
    error := e;
  }

  /**
   * `SyncWaitGet<T>(runner)`, both overloads: the private routine's
   * `ReturnValue` once it is done, cast to `T`; the exception of a pump that
   * threw, or of a cast that fails.
   */
  method SyncWaitGet(runner: Id, t: ClrType, arena: Arena) returns (r: Result<Value, Exn>)
    requires Wf(arena.entries) && runner < |arena.entries|
    modifies arena
    ensures var run := RunOf(old(arena.entries), runner, Legacy);
            arena.entries == run.entries &&
            (run.error.Some? ==> r == Err(run.error.value)) &&
            (run.error.None? ==> r == Cast(run.state.returnValue, t))
  {
    InitialRunnable(arena.entries, runner);
    var coroutine := new Coroutine(runner);
    var _, error := PumpToEnd(coroutine, arena);
    if error.Some? {
      return Err(error.value);
    }
    r := Cast(coroutine.ReturnValue().value, t);
  }

  /**
   * `Wrap<T>(runner)` enumerated to its end: a null for each pump that
   * returned true, then the return value, unless it is an object of another
   * type than `T`.
   */
  method Wrap(runner: Id, t: ClrType, arena: Arena) returns (values: seq<Value>, error: Option<Exn>)
    requires Wf(arena.entries) && runner < |arena.entries|
    modifies arena
    ensures Generated(arena.entries, values, error) == WrapSpec(old(arena.entries), runner, t, Legacy)
  {
    InitialRunnable(arena.entries, runner);
    var coroutine := new Coroutine(runner);
    ghost var run := Drive(arena.entries, coroutine.State(), Legacy);
    values := [];
    while true
      invariant Driving(Legacy, run, arena.entries, coroutine.State(), |values|) && values == Defaults(|values|)
      decreases Potential(arena.entries, coroutine.State().stack)
    {
      var r := DrivePump(coroutine, arena, run, |values|);
      if r.Err? {
        return values, Some(r.error);
      }
      if !r.value {
        break;
      }
      DefaultsMore(|values|);
      values := values + [Null];
    }
    var v := coroutine.ReturnValue().value;
    if v != Null && !IsInstance(v, t) {
      // an `AssertException` whose message names both types
      return values, Some(WrongType(t, v.typ, Legacy));
    }
    values, error := values + [v], None;
  }

  /** The routines of a list, as the set of objects a round may change. */
  function Members(rs: seq<Coroutine>): set<Coroutine> {
    set r | r in rs
  }

  /** The state of each routine of a list, in list order. */
  function States(rs: seq<Coroutine>): (sts: seq<RoutineState>)
    reads Members(rs)
    ensures |sts| == |rs|
    ensures forall i :: 0 <= i < |rs| ==> sts[i] == rs[i].State()
  {
    seq(|rs|, i requires 0 <= i < |rs| reads Members(rs) => rs[i].State())
  }

  predicate Distinct(rs: seq<Coroutine>) {
    forall i, j :: 0 <= i < j < |rs| ==> rs[i] != rs[j]
  }

  /** A round part way through: the first `i` routines were pumped into `states`, the rest hold `sts0`. */
  ghost predicate Pumped(rs: seq<Coroutine>, sts0: seq<RoutineState>, i: nat, states: seq<RoutineState>)
    reads Members(rs)
  {
    |sts0| == |rs| && i <= |rs| && |states| == i &&
    (forall j :: 0 <= j < i ==> rs[j].State() == states[j]) &&
    (forall j :: i <= j < |rs| ==> rs[j].State() == sts0[j])
  }

  /** Routine `i` pumped into `st`, every other routine as it was: the round one routine on. */
  twostate lemma PumpedStep(new rs: seq<Coroutine>, new sts0: seq<RoutineState>, i: nat, new states: seq<RoutineState>,
                            new st: RoutineState)
    requires old(allocated(rs)) && old(Pumped(rs, sts0, i, states)) && i < |rs|
    requires forall j :: 0 <= j < |rs| && j != i ==> rs[j].State() == old(rs[j].State())
    requires rs[i].State() == st
    ensures Pumped(rs, sts0, i + 1, states + [st])
  {
  }

  /** One pump of the first `foreach`: routine `i`, whose pump either moves the round on or ends it. */
  method PumpAt(rs: seq<Coroutine>, i: nat, arena: Arena, ghost whole: Sweep, ghost sts0: seq<RoutineState>,
                ghost states: seq<RoutineState>) returns (error: Option<Exn>, ghost states': seq<RoutineState>)
    requires Distinct(rs) && Swept(Legacy, whole, arena.entries, sts0, i, states) && Pumped(rs, sts0, i, states) && i < |rs|
    modifies arena, rs[i]
    ensures error.None? ==> Swept(Legacy, whole, arena.entries, sts0, i + 1, states') && Pumped(rs, sts0, i + 1, states')
    ensures error.Some? ==> whole == Sweep(arena.entries, states, Some(Fault(i, error.value)))
  {
    ghost var e := arena.entries;
    var r := rs[i].Pump(arena);
    if r.Err? {
      SweptThrew(Legacy, whole, e, sts0, i, states);
      return Some(r.error), states;
    }
    ghost var o := PumpSpec(e, sts0[i], Legacy);
    SweptPumped(Legacy, whole, e, sts0, i, states);
    states' := states + [o.state];
    PumpedStep(rs, sts0, i, states, o.state);
    error := None;
  }

  /** The first `foreach` of a round: pumps every listed routine once, in list order; a pump that throws ends it. */
  method PumpRound(rs: seq<Coroutine>, arena: Arena) returns (error: Option<Exn>)
    requires Distinct(rs) && Closed(arena.entries) && AllFit(arena.entries, States(rs))
    modifies arena, Members(rs)
    ensures var sw := SweepSpec(old(arena.entries), old(States(rs)), Legacy);
            arena.entries == sw.entries && error == FaultError(sw) && (error.None? ==> States(rs) == sw.states)
  {
    ghost var sts0 := States(rs);
    ghost var whole := SweepSpec(arena.entries, sts0, Legacy);
    ghost var states: seq<RoutineState> := [];
    SweptStart(Legacy, arena.entries, sts0);
    for i := 0 to |rs|
      invariant Swept(Legacy, whole, arena.entries, sts0, i, states) && Pumped(rs, sts0, i, states)
    {
      error, states := PumpAt(rs, i, arena, whole, sts0, states);
      if error.Some? {
        return;
      }
    }
    SweptAll(Legacy, whole, arena.entries, sts0, |rs|, states);
    error := None;
  }

  /** The second `foreach` of a round: the list without the routines that are done, the others in order. */
  method RemoveDone(rs: seq<Coroutine>) returns (kept: seq<Coroutine>)
    ensures kept == Keep(rs, States(rs)) && States(kept) == Live(States(rs))
  {
    ghost var sts := States(rs);
    kept := [];
    for i := 0 to |rs|
      invariant kept == Keep(rs[..i], sts[..i]) && States(kept) == Keep(sts[..i], sts[..i])
    {
      KeepNext(rs, sts, i);
      KeepNext(sts, sts, i);
      if !rs[i].IsDone() {
        assert States(kept + [rs[i]]) == States(kept) + [sts[i]];
        kept := kept + [rs[i]];
      }
    }
    assert rs[..|rs|] == rs && sts[..|rs|] == sts;
    assert kept == Keep(rs, sts) && States(kept) == Keep(sts, sts);
    assert States(rs) == sts;
    assert Live(sts) == Keep(sts, sts);
  }

  /** `runners.Select(x => new Coroutine(x)).ToList()`: a new routine on each runner, in order. */
  method NewRoutines(runners: seq<Id>) returns (rs: seq<Coroutine>)
    ensures Distinct(rs) && (forall r :: r in rs ==> fresh(r)) && States(rs) == Initials(runners)
  {
    rs := [];
    for i := 0 to |runners|
      invariant |rs| == i && Distinct(rs)
      invariant forall j :: 0 <= j < i ==> fresh(rs[j]) && rs[j].State() == Initial(runners[j])
    {
      var routine := new Coroutine(runners[i]);
      rs := rs + [routine];
    }
  }

  /**
   * `MakeParallelGroup(runners)` enumerated to its end: rounds that pump
   * every listed routine once and then drop the done ones, each followed by
   * one null, until the list is empty or a pump threw.
   */
  method MakeParallelGroup(runners: seq<Id>, arena: Arena) returns (rounds: nat, error: Option<Exn>)
    requires Wf(arena.entries) && AllIn(arena.entries, runners)
    modifies arena
    ensures ParallelGroup(old(arena.entries), runners, Legacy) == Group(arena.entries, rounds, error)
  {
    ghost var g0 := ParallelGroup(arena.entries, runners, Legacy);
    var runnerList := NewRoutines(runners);
    GroupingStart(Legacy, arena.entries, runners);
    rounds, error := 0, None;
    while runnerList != []
      invariant Distinct(runnerList) && forall r :: r in runnerList ==> fresh(r)
      invariant Grouping(Legacy, g0, arena.entries, States(runnerList), rounds) && error.None?
      decreases TotalPotential(arena.entries, States(runnerList))
    {
      ghost var e, sts := arena.entries, States(runnerList);
      GroupingThrew(Legacy, g0, e, sts, rounds);
      error := PumpRound(runnerList, arena);
      if error.Some? {
        return;
      }
      GroupingNext(Legacy, g0, e, sts, rounds);
      KeepUnique(runnerList, States(runnerList));
      runnerList := RemoveDone(runnerList);
      rounds := rounds + 1;
    }
    GroupingEnds(Legacy, g0, arena.entries, rounds);
  }
}
