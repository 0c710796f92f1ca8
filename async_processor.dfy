/**
 * The newer `AsyncProcessor`: a pending list of workers and an active list,
 * each worker holding an `AsyncRoutine` and an `IsFinished` flag. The active
 * `LinkedList` is a sequence here; walking it while removing the current node
 * is an index that stays put when the node is removed.
 */
module AsyncProcessors {
  import opened Wrappers
  import opened CoroutineExceptions
  import opened Producers
  import opened RoutineSpec
  import opened Sweeps
  import opened Walks
  import opened AsyncRoutines
  import opened Combinators

  class CoroutineInfo {
    var isFinished: bool
    const routine: AsyncRoutine

    constructor (routine: AsyncRoutine)
      ensures this.routine == routine && !isFinished
    {
      this.routine := routine;
      isFinished := false;
    }
  }

  /** The workers of a list, as the set of objects a walk of it may change. */
  function Nodes(ws: seq<CoroutineInfo>): set<CoroutineInfo> {
    set w | w in ws
  }

  /** The routines the workers of a list hold. */
  function Routines(ws: seq<CoroutineInfo>): set<AsyncRoutine> {
    set w | w in ws :: w.routine
  }

  /** The state of each worker's routine, in list order. */
  function States(ws: seq<CoroutineInfo>): (sts: seq<RoutineState>)
    reads Routines(ws)
    ensures |sts| == |ws|
    ensures forall i :: 0 <= i < |ws| ==> sts[i] == ws[i].routine.State()
  {
    seq(|ws|, i requires 0 <= i < |ws| reads Routines(ws) => ws[i].routine.State())
  }

  /** No routine is held by two workers. */
  predicate Distinct(ws: seq<CoroutineInfo>) {
    forall i, j :: 0 <= i < j < |ws| ==> ws[i].routine != ws[j].routine
  }

  lemma {:induction false} KeepDistinct(ws: seq<CoroutineInfo>, sts: seq<RoutineState>)
    requires |ws| == |sts| && Distinct(ws)
    ensures Distinct(Keep(ws, sts))
    ensures forall w :: w in Keep(ws, sts) ==> w in ws
    decreases |ws|
  {
    if ws != [] {
      var n := |ws| - 1;
      KeepDistinct(ws[..n], sts[..n]);
      var k0 := Keep(ws[..n], sts[..n]);
      assert forall w :: w in k0 ==> w in ws[..n];
      forall w | w in k0
        ensures w.routine != ws[n].routine
      {
        var i :| 0 <= i < n && ws[..n][i] == w;
        assert ws[i] == w;
      }
      assert Keep(ws, sts) == k0 + (if sts[n].IsDone() then [] else [ws[n]]);
    }
  }

  /** The first worker holding `routine`: what `FirstOrDefault` looks for. */
  function Find(ws: seq<CoroutineInfo>, routine: AsyncRoutine): (r: Option<nat>)
    ensures r.Some? ==> r.value < |ws| && ws[r.value].routine == routine
    ensures r.Some? ==> forall j :: 0 <= j < r.value ==> ws[j].routine != routine
    ensures r.None? ==> forall j :: 0 <= j < |ws| ==> ws[j].routine != routine
    decreases |ws|
  {
    if ws == [] then None
    else if ws[0].routine == routine then Some(0)
    else match Find(ws[1..], routine)
      case None => None
      case Some(i) => Some(i + 1)
  }

  /** `Remove(item)`: drops the first occurrence, if there is one. */
  function Without(ws: seq<CoroutineInfo>, w: CoroutineInfo): (r: seq<CoroutineInfo>)
    ensures w !in ws ==> r == ws
    decreases |ws|
  {
    if ws == [] then []
    else if ws[0] == w then ws[1..]
    else [ws[0]] + Without(ws[1..], w)
  }

  /** Removing an item drops its first occurrence and keeps the rest in order. */
  lemma {:induction false} WithoutFirst(ws: seq<CoroutineInfo>, i: nat)
    requires i < |ws| && ws[i] !in ws[..i]
    ensures Without(ws, ws[i]) == ws[..i] + ws[i + 1..]
    decreases i
  {
    if i > 0 {
      assert ws[1..][..i - 1] == ws[1..i];
      assert ws[i] !in ws[1..][..i - 1];
      WithoutFirst(ws[1..], i - 1);
      assert ws[..i] == [ws[0]] + ws[1..][..i - 1];
      assert ws[i + 1..] == ws[1..][i..];
    }
  }

  /** The list without the first worker holding `routine`: what `Remove(FirstOrDefault(...))` leaves. */
  function Unlisted(ws: seq<CoroutineInfo>, routine: AsyncRoutine): (r: seq<CoroutineInfo>)
    ensures Find(ws, routine).None? ==> r == ws
    ensures Find(ws, routine).Some? ==> |r| == |ws| - 1
  {
    match Find(ws, routine)
    case None => ws
    case Some(i) => ws[..i] + ws[i + 1..]
  }

  /** Dropping one worker keeps the routines distinct, and the dropped routine is held by none of the rest. */
  lemma DistinctDrop(ws: seq<CoroutineInfo>, i: nat)
    requires Distinct(ws) && i < |ws|
    ensures Distinct(ws[..i] + ws[i + 1..])
    ensures forall w :: w in ws[..i] + ws[i + 1..] <==> w in ws && w.routine != ws[i].routine
  {
    var r := ws[..i] + ws[i + 1..];
    assert forall j :: 0 <= j < |r| ==> r[j] == ws[if j < i then j else j + 1];
    forall w | w in ws && w.routine != ws[i].routine
      ensures w in r
    {
      var j :| 0 <= j < |ws| && ws[j] == w;
      assert r[if j < i then j else j - 1] == w;
    }
  }

  /**
   * With no routine held twice across the active and the pending list, a
   * routine found at `i` in the active list is not pending, removing its
   * worker from either list drops it from the active one only, and what is
   * left holds no routine twice and no worker holding that routine.
   */
  lemma UnlistedActive(ws: seq<CoroutineInfo>, pending: seq<CoroutineInfo>, routine: AsyncRoutine, i: nat)
    requires Distinct(ws + pending) && Find(ws, routine) == Some(i)
    ensures Find(pending, routine).None?
    ensures Without(ws, ws[i]) == ws[..i] + ws[i + 1..] == Unlisted(ws, routine)
    ensures Without(pending, ws[i]) == pending == Unlisted(pending, routine)
    ensures Distinct(Without(ws, ws[i]) + Without(pending, ws[i]))
    ensures forall w :: w in ws[..i] + ws[i + 1..] + pending ==> w.routine != routine
  {
    var all := ws + pending;
    NotPending(ws, pending, i);
    DistinctDrop(all, i);
    DropInFront(ws, pending, i);
    assert all[i] == ws[i];
    assert ws[i] !in ws[..i];
    WithoutFirst(ws, i);
  }

  /** A routine held only at `j` in the pending list: dropping it there keeps the routines distinct and leaves none holding it. */
  lemma UnlistedPending(ws: seq<CoroutineInfo>, pending: seq<CoroutineInfo>, routine: AsyncRoutine, j: nat)
    requires Distinct(ws + pending) && Find(ws, routine).None? && Find(pending, routine) == Some(j)
    ensures Distinct(ws + (pending[..j] + pending[j + 1..]))
    ensures forall w :: w in ws + (pending[..j] + pending[j + 1..]) ==> w.routine != routine
  {
    var all := ws + pending;
    DistinctDrop(all, |ws| + j);
    DropBehind(ws, pending, j);
    assert all[|ws| + j] == pending[j];
  }

  /** A routine held in neither list is held by no worker. */
  lemma UnlistedNowhere(ws: seq<CoroutineInfo>, pending: seq<CoroutineInfo>, routine: AsyncRoutine)
    requires Find(ws, routine).None? && Find(pending, routine).None?
    ensures forall w :: w in ws + pending ==> w.routine != routine
  {
    forall w | w in ws + pending
      ensures w.routine != routine
    {
      if w in ws {
        var k :| 0 <= k < |ws| && ws[k] == w;
      } else {
        var k :| 0 <= k < |pending| && pending[k] == w;
      }
    }
  }

  /** A routine held in the active list is held by no pending worker. */
  lemma NotPending(ws: seq<CoroutineInfo>, pending: seq<CoroutineInfo>, i: nat)
    requires Distinct(ws + pending) && i < |ws|
    ensures forall w :: w in pending ==> w.routine != ws[i].routine
  {
    forall w | w in pending
      ensures w.routine != ws[i].routine
    {
      var j :| 0 <= j < |pending| && pending[j] == w;
      assert (ws + pending)[|ws| + j] == w && (ws + pending)[i] == ws[i];
    }
  }

  lemma DropInFront<T>(a: seq<T>, b: seq<T>, i: nat)
    requires i < |a|
    ensures (a + b)[..i] + (a + b)[i + 1..] == a[..i] + a[i + 1..] + b
  {
    assert (a + b)[..i] == a[..i] && (a + b)[i + 1..] == a[i + 1..] + b;
  }

  lemma DropBehind<T>(a: seq<T>, b: seq<T>, j: nat)
    requires j < |b|
    ensures (a + b)[..|a| + j] + (a + b)[|a| + j + 1..] == a + (b[..j] + b[j + 1..])
  {
    assert (a + b)[..|a| + j] == a + b[..j] && (a + b)[|a| + j + 1..] == b[j + 1..];
  }

  /** The active list left by a sweep holds no routine twice. */
  lemma RemainingDistinct(ws: seq<CoroutineInfo>, sw: Sweep)
    requires Distinct(ws)
    requires sw.fault.None? ==> |sw.states| == |ws|
    requires sw.fault.Some? ==> sw.fault.value.index == |sw.states| < |ws|
    ensures Distinct(Remaining(ws, sw))
  {
    match sw.fault
    case None => KeepDistinct(ws, sw.states);
    case Some(f) =>
      var i := f.index;
      KeepDistinct(ws[..i], sw.states);
      var kept := Keep(ws[..i], sw.states);
      var r := kept + ws[i..];
      forall a, b | 0 <= a < b < |r|
        ensures r[a].routine != r[b].routine
      {
        if b >= |kept| && a < |kept| {
          assert kept[a] in ws[..i];
          var p :| 0 <= p < i && ws[..i][p] == kept[a];
          assert r[b] == ws[i + (b - |kept|)];
        } else if a >= |kept| {
          assert r[a] == ws[i + (a - |kept|)] && r[b] == ws[i + (b - |kept|)];
        }
      }
  }

  /** The `IsFinished` flag of each worker, in list order. */
  function Flags(ws: seq<CoroutineInfo>): (fs: seq<bool>)
    reads Nodes(ws)
    ensures |fs| == |ws|
    ensures forall i :: 0 <= i < |ws| ==> fs[i] == ws[i].isFinished
  {
    seq(|ws|, i requires 0 <= i < |ws| reads Nodes(ws) => ws[i].isFinished)
  }

  /**
   * The workers' routines and flags part way through a walk: the first `k`
   * hold the pumped `states` and are flagged by whether they are done, the
   * rest hold `sts0` and `flags0` as the walk found them.
   */
  ghost predicate Visited(ws: seq<CoroutineInfo>, flags0: seq<bool>, sts0: seq<RoutineState>, k: nat,
                          states: seq<RoutineState>)
    reads Routines(ws), Nodes(ws)
  {
    |sts0| == |ws| && |flags0| == |ws| && k <= |ws| && |states| == k &&
    (forall i :: 0 <= i < k ==> ws[i].routine.State() == states[i] && ws[i].isFinished == states[i].IsDone()) &&
    (forall i :: k <= i < |ws| ==> ws[i].routine.State() == sts0[i] && ws[i].isFinished == flags0[i])
  }

  /** A worker pumped and flagged, with every other worker as it was: the walk's heap one worker on. */
  twostate lemma VisitStep(new ws: seq<CoroutineInfo>, new flags0: seq<bool>, new sts0: seq<RoutineState>, k: nat,
                           new states: seq<RoutineState>, new st: RoutineState)
    requires old(allocated(ws)) && old(Visited(ws, flags0, sts0, k, states)) && k < |ws|
    requires forall i :: 0 <= i < |ws| && i != k ==>
               ws[i].routine.State() == old(ws[i].routine.State()) && ws[i].isFinished == old(ws[i].isFinished)
    requires ws[k].routine.State() == st && ws[k].isFinished == st.IsDone()
    ensures Visited(ws, flags0, sts0, k + 1, states + [st])
  {
  }

  /** A worker whose pump threw: flagged finished, its routine and every other worker as they were. */
  twostate lemma VisitThrew(new ws: seq<CoroutineInfo>, new flags0: seq<bool>, new sts0: seq<RoutineState>, k: nat,
                            new states: seq<RoutineState>)
    requires old(allocated(ws)) && old(Visited(ws, flags0, sts0, k, states)) && k < |ws|
    requires forall i :: 0 <= i < |ws| && i != k ==>
               ws[i].routine.State() == old(ws[i].routine.State()) && ws[i].isFinished == old(ws[i].isFinished)
    requires ws[k].routine.State() == old(ws[k].routine.State()) && ws[k].isFinished
    ensures Visited(ws, flags0[k := true], sts0, k, states)
  {
  }

  /**
   * The outcome of sweeping the workers `ws`, found holding the states `sts`
   * and the flags `fl`, over the entries `e0`: the entries and the error are
   * the sweep's, the active `list` is what the sweep keeps, and each worker
   * holds the state and flag the sweep left it. The list only loses
   * workers, and without a fault it keeps exactly those not done.
   */
  ghost predicate Advanced(list: seq<CoroutineInfo>, entries: seq<Producer>, ws: seq<CoroutineInfo>,
                           sts: seq<RoutineState>, fl: seq<bool>, e0: seq<Producer>, error: Option<Exn>)
    reads Routines(ws), Nodes(ws)
    ensures Advanced(list, entries, ws, sts, fl, e0, error) ==>
              |list| <= |ws| && forall x :: x in list ==> x in ws
    ensures Advanced(list, entries, ws, sts, fl, e0, error) && error.None? ==>
              forall i :: 0 <= i < |ws| ==> (ws[i] in list <==> !ws[i].routine.State().IsDone())
  {
    |sts| == |ws| && |fl| == |ws| && Closed(e0) && AllFit(e0, sts) &&
    var sw := SweepSpec(e0, sts, Async);
    entries == sw.entries && error == FaultError(sw) && list == Remaining(ws, sw) &&
    forall i :: 0 <= i < |ws| ==>
      ws[i].routine.State() == StateAfter(sw, i, sts[i]) && ws[i].isFinished == FinishedAfter(sw, i, fl[i])
  }

  /** Sweeping no workers changes nothing and throws nothing. */
  lemma AdvancedEmpty(entries: seq<Producer>)
    requires Closed(entries)
    ensures Advanced([], entries, [], [], [], entries, None)
  {
  }

  /**
   * Sweeping workers whose first routine is done throws the pump's
   * assertion at the first worker: it is flagged finished, and every worker
   * stays listed and keeps its routine's state.
   */
  lemma AdvancedDoneHead(list: seq<CoroutineInfo>, entries: seq<Producer>, ws: seq<CoroutineInfo>,
                         sts: seq<RoutineState>, fl: seq<bool>, e0: seq<Producer>, error: Option<Exn>)
    requires Advanced(list, entries, ws, sts, fl, e0, error) && ws != [] && sts[0].IsDone()
    ensures error == Some(AssertFailed(PumpAssertMessage)) && list == ws && entries == e0 && ws[0].isFinished
    ensures Closed(entries) && AllFit(entries, sts)
    ensures forall i :: 0 <= i < |ws| ==> ws[i].routine.State() == sts[i]
  {
    SweepDoneHead(e0, sts, Async);
    assert ws[..0] == [] && ws[0..] == ws;
  }

  /** `AdvanceFrameAll`'s `try` block: pumps one worker and sets its flag; no other worker changes. */
  method AdvanceWorker(worker: CoroutineInfo, arena: Arena, ghost ws: seq<CoroutineInfo>, ghost k: nat)
    returns (r: Result<bool, Exn>)
    requires Closed(arena.entries) && Fits(arena.entries, worker.routine.State())
    requires Distinct(ws) && k < |ws| && ws[k] == worker
    modifies worker, worker.routine, arena
    ensures forall i :: 0 <= i < |ws| && i != k ==>
              ws[i].routine.State() == old(ws[i].routine.State()) && ws[i].isFinished == old(ws[i].isFinished)
    ensures match PumpSpec(old(arena.entries), old(worker.routine.State()), Async)
            case Threw(error, entries) =>
              r == Err(error) && arena.entries == entries && worker.routine.State() == old(worker.routine.State()) &&
              worker.isFinished
            case Pumped(entries, state, more) =>
              r == Ok(more) && arena.entries == entries && worker.routine.State() == state &&
              worker.isFinished == state.IsDone()
  {
    r := worker.routine.Pump(arena);
    if r.Err? {
      worker.isFinished := true;
      return;
    }
    worker.isFinished := worker.routine.IsDone();
  }

  class AsyncProcessor {
    var newWorkers: seq<CoroutineInfo>
    var workers: seq<CoroutineInfo>

    predicate Valid()
      reads this
    {
      Distinct(workers + newWorkers)
    }

    constructor ()
      ensures Valid() && workers == [] && newWorkers == [] && !IsRunning()
    {
      newWorkers := [];
      workers := [];
    }

    function IsRunning(): (running: bool)
      reads this
      ensures running <==> workers + newWorkers != []
    {
      workers != [] || newWorkers != []
    }

    /** `Process`: a new routine on `process`, queued as pending and not yet pumped. */
    method Process(process: Id) returns (coroutine: AsyncRoutine)
      requires Valid()
      modifies this
      ensures Valid() && IsRunning()
      ensures fresh(coroutine) && coroutine.State() == Initial(process)
      ensures workers == old(workers) && |newWorkers| == |old(newWorkers)| + 1
      ensures newWorkers[..|old(newWorkers)|] == old(newWorkers)
      ensures var w := newWorkers[|old(newWorkers)|]; fresh(w) && w.routine == coroutine && !w.isFinished
    {
      coroutine := new AsyncRoutine(process);
      var data := new CoroutineInfo(coroutine);
      newWorkers := newWorkers + [data];
      assert workers + newWorkers == old(workers + newWorkers) + [data];
    }

    /** Moves every pending worker, in order, to the end of the active list. */
    method AddNewWorkers()
      modifies this
      ensures workers == old(workers + newWorkers) && newWorkers == []
      ensures States(workers) == old(States(workers + newWorkers)) && Flags(workers) == old(Flags(workers + newWorkers))
    {
      for i := 0 to |newWorkers|
        invariant newWorkers == old(newWorkers)
        invariant workers == old(workers) + newWorkers[..i]
      {
        workers := workers + [newWorkers[i]];
      }
      assert newWorkers[..|newWorkers|] == newWorkers;
      newWorkers := [];
    }

    /**
     * The walk of the active list, after `k` of the workers `ws` it started
     * with: those were pumped into `states` and flagged by whether they are
     * done, the rest are untouched, the list holds the kept ones before `pos`
     * and the unvisited ones from `pos`, and `whole` is what is left to see
     * of the sweep.
     */
    ghost predicate Walking(arena: Arena, ws: seq<CoroutineInfo>, flags0: seq<bool>, whole: Sweep,
                            sts0: seq<RoutineState>, k: nat, states: seq<RoutineState>, pos: nat)
      reads this, arena, Routines(ws), Nodes(ws)
    {
      Distinct(ws) && Swept(Async, whole, arena.entries, sts0, k, states) &&
      Visited(ws, flags0, sts0, k, states) && Listed(workers, ws, k, states, pos)
    }

    /** The walk stopped at worker `k`, whose pump threw `error`: that worker is flagged, nothing else changed. */
    ghost predicate Faulted(arena: Arena, ws: seq<CoroutineInfo>, flags0: seq<bool>, whole: Sweep,
                            sts0: seq<RoutineState>, k: nat, states: seq<RoutineState>, pos: nat, error: Exn)
      reads this, arena, Routines(ws), Nodes(ws)
    {
      k < |ws| && |flags0| == |ws| && whole == Sweep(arena.entries, states, Some(Fault(k, error))) &&
      Visited(ws, flags0[k := true], sts0, k, states) && Listed(workers, ws, k, states, pos)
    }

    /**
     * The node at `pos`, just pumped to `st`, is unlinked when `done` and kept
     * otherwise; `next` is the position of the node to visit after it.
     */
    method Relist(pos: nat, done: bool, ghost ws: seq<CoroutineInfo>, ghost k: nat,
                  ghost states: seq<RoutineState>, ghost st: RoutineState)
      returns (next: nat)
      requires Listed(workers, ws, k, states, pos) && k < |ws| && done == st.IsDone()
      modifies this
      ensures newWorkers == old(newWorkers)
      ensures workers == if done then old(workers[..pos] + workers[pos + 1..]) else old(workers)
      ensures next == if done then pos else pos + 1
      ensures Listed(workers, ws, k + 1, states + [st], next)
    {
      if done {
        ListedDrop(workers, ws, k, states, pos, st);
        workers := workers[..pos] + workers[pos + 1..];
        next := pos;
      } else {
        ListedKeep(workers, ws, k, states, pos, st);
        next := pos + 1;
      }
    }

    /**
     * One node of the walk: pumps its worker, flags it, and unlinks it when
     * its routine is done; the next node is the one after it either way.
     */
    method AdvanceNode(arena: Arena, pos: nat, ghost ws: seq<CoroutineInfo>, ghost flags0: seq<bool>,
                       ghost whole: Sweep, ghost sts0: seq<RoutineState>, ghost k: nat, ghost states: seq<RoutineState>)
      returns (error: Option<Exn>, next: nat, ghost states': seq<RoutineState>)
      requires Walking(arena, ws, flags0, whole, sts0, k, states, pos) && k < |ws|
      modifies this, arena, ws[k], ws[k].routine
      ensures newWorkers == old(newWorkers)
      ensures error.None? ==> Swept(Async, whole, arena.entries, sts0, k + 1, states')
      ensures error.None? ==> Visited(ws, flags0, sts0, k + 1, states')
      ensures error.None? ==> Listed(workers, ws, k + 1, states', next)
      ensures error.Some? ==> next == pos && states' == states && Faulted(arena, ws, flags0, whole, sts0, k, states, pos, error.value)
    {
      ListedAt(workers, ws, k, states, pos);
      var worker := workers[pos];
      assert worker.routine.State() == sts0[k];
      ghost var e := arena.entries;
      var r := AdvanceWorker(worker, arena, ws, k);
      if r.Err? {
        SweptThrew(Async, whole, e, sts0, k, states);
        VisitThrew(ws, flags0, sts0, k, states);
        error, next, states' := Some(r.error), pos, states;
      } else {
        ghost var o := PumpSpec(e, sts0[k], Async);
        SweptPumped(Async, whole, e, sts0, k, states);
        states' := states + [o.state];
        next := Relist(pos, worker.isFinished, ws, k, states, o.state);
        VisitStep(ws, flags0, sts0, k, states, o.state);
        error := None;
      }
    }

    /**
     * A walk that ran past the last node, or stopped on the pump that threw
     * `error`, has carried out `whole`, the sweep of the list `ws` it started
     * with over the entries `e0`.
     */
    lemma WalkEnds(arena: Arena, ws: seq<CoroutineInfo>, flags0: seq<bool>, whole: Sweep, e0: seq<Producer>,
                   sts0: seq<RoutineState>, k: nat, states: seq<RoutineState>, pos: nat, error: Option<Exn>)
      requires error.None? ==> Walking(arena, ws, flags0, whole, sts0, k, states, pos) && pos == |workers|
      requires error.Some? ==> Faulted(arena, ws, flags0, whole, sts0, k, states, pos, error.value)
      requires Closed(e0) && AllFit(e0, sts0) && whole == SweepSpec(e0, sts0, Async) && |sts0| == |ws|
      ensures Advanced(workers, arena.entries, ws, sts0, flags0, e0, error)
    {
      if error.None? {
        ListedAll(workers, ws, k, states, pos);
        SweptAll(Async, whole, arena.entries, sts0, k, states);
      } else {
        ListedSplit(workers, ws, k, states, pos);
      }
    }

    /**
     * The walk itself: from the head of the list, advances node after node
     * until it runs past the last one or a pump throws.
     */
    method Walk(arena: Arena, ghost ws: seq<CoroutineInfo>, ghost flags0: seq<bool>, ghost whole: Sweep,
                ghost sts0: seq<RoutineState>)
      returns (error: Option<Exn>, pos: nat, ghost k: nat, ghost states: seq<RoutineState>)
      requires Walking(arena, ws, flags0, whole, sts0, 0, [], 0)
      modifies this, arena, Routines(ws), Nodes(ws)
      ensures newWorkers == old(newWorkers)
      ensures error.None? ==> Walking(arena, ws, flags0, whole, sts0, k, states, pos) && pos == |workers|
      ensures error.Some? ==> Faulted(arena, ws, flags0, whole, sts0, k, states, pos, error.value)
    {
      k, states, pos, error := 0, [], 0, None;
      while pos < |workers|
        invariant Walking(arena, ws, flags0, whole, sts0, k, states, pos)
        invariant newWorkers == old(newWorkers) && error.None?
        decreases |ws| - k
      {
        assert |workers[pos..]| == |ws[k..]|;
        error, pos, states := AdvanceNode(arena, pos, ws, flags0, whole, sts0, k, states);
        if error.Some? {
          return;
        }
        k := k + 1;
      }
    }

    /**
     * Pumps every active worker once, in order, and removes those whose
     * routine is then done. A pump that throws flags its worker finished and
     * ends the sweep; that worker is not removed.
     */
    method AdvanceFrameAll(arena: Arena) returns (error: Option<Exn>)
      requires Distinct(workers) && Closed(arena.entries) && AllFit(arena.entries, States(workers))
      modifies this, arena, Routines(workers), Nodes(workers)
      ensures newWorkers == old(newWorkers) && Distinct(workers)
      ensures Advanced(workers, arena.entries, old(workers), old(States(workers)), old(Flags(workers)),
                       old(arena.entries), error)
    {
      ghost var ws := workers;
      ghost var sts0 := States(ws);
      ghost var flags0 := Flags(ws);
      ghost var e0 := arena.entries;
      ghost var whole := SweepSpec(e0, sts0, Async);
      SweptStart(Async, e0, sts0);
      ListedStart(ws);
      var pos;
      ghost var k, states;
      error, pos, k, states := Walk(arena, ws, flags0, whole, sts0);
      WalkEnds(arena, ws, flags0, whole, e0, sts0, k, states, pos, error);
      RemainingDistinct(ws, whole);
    }

    /**
     * One frame: the pending workers join the end of the active list; if that
     * list is empty nothing more happens; otherwise it is swept, and, if no
     * pump threw, the (now empty) pending list is added once more.
     */
    method Tick(arena: Arena) returns (error: Option<Exn>)
      requires Valid() && Closed(arena.entries) && AllFit(arena.entries, States(workers + newWorkers))
      modifies this, arena, Routines(workers + newWorkers), Nodes(workers + newWorkers)
      ensures Valid() && newWorkers == []
      ensures Advanced(workers, arena.entries, old(workers + newWorkers), old(States(workers + newWorkers)),
                       old(Flags(workers + newWorkers)), old(arena.entries), error)
    {
      ghost var ws := workers + newWorkers;
      ghost var sts := States(ws);
      ghost var fl := Flags(ws);
      ghost var e0 := arena.entries;
      AddNewWorkers();
      if workers == [] {
        AdvancedEmpty(arena.entries);
        return None;
      }
      error := AdvanceFrameAll(arena);
      if error.None? {
        AddNewWorkers();
        assert workers + [] == workers;
      }
    }

    /**
     * `Stop` as written: clears the routine, then looks for its worker in the
     * active list only and removes it there. A worker still pending is not
     * found, so it stays pending.
     */
    method Stop(coroutine: AsyncRoutine)
      requires Valid()
      modifies this, coroutine
      ensures Valid() && coroutine.IsDone()
      ensures coroutine.finished == old(coroutine.finished) && coroutine.returnValue == old(coroutine.returnValue)
      ensures workers == Unlisted(old(workers), coroutine) && newWorkers == old(newWorkers)
    {
      coroutine.Stop();
      var found := Find(workers, coroutine);
      if found.Some? {
        UnlistedActive(workers, newWorkers, coroutine, found.value);
        var worker := workers[found.value];
        workers := Without(workers, worker);
        newWorkers := Without(newWorkers, worker);
      }
    }

    /**
     * `Stop` corrected: looks for the worker in the active list and, failing
     * that, in the pending list, and removes it from the list holding it.
     */
    method StopEverywhere(coroutine: AsyncRoutine)
      requires Valid()
      modifies this, coroutine
      ensures Valid() && coroutine.IsDone()
      ensures coroutine.finished == old(coroutine.finished) && coroutine.returnValue == old(coroutine.returnValue)
      ensures workers == Unlisted(old(workers), coroutine) && newWorkers == Unlisted(old(newWorkers), coroutine)
      ensures forall w :: w in workers + newWorkers ==> w.routine != coroutine
    {
      coroutine.Stop();
      var found := Find(workers, coroutine);
      if found.Some? {
        var i := found.value;
        UnlistedActive(workers, newWorkers, coroutine, i);
        workers := workers[..i] + workers[i + 1..];
      } else {
        var pending := Find(newWorkers, coroutine);
        if pending.Some? {
          var j := pending.value;
          UnlistedPending(workers, newWorkers, coroutine, j);
          newWorkers := newWorkers[..j] + newWorkers[j + 1..];
        } else {
          UnlistedNowhere(workers, newWorkers, coroutine);
        }
      }
    }
  }

  /**
   * A routine stopped while still pending: `Stop` leaves its worker pending,
   * so the next `Tick` activates it and pumps a done routine, whose assertion
   * throws; the worker is flagged but stays active, so the processor keeps
   * running and the `Tick` after that throws again.
   */
  method StopPendingThenTick() returns (p: AsyncProcessor, first: Option<Exn>, second: Option<Exn>)
    ensures first == Some(AssertFailed(PumpAssertMessage)) && second == first && p.IsRunning()
  {
    var arena := new Arena([Fresh([Yield(Null)], None)]);
    p := new AsyncProcessor();
    var coroutine := p.Process(0);
    p.Stop(coroutine);
    ghost var w := p.newWorkers[0];
    first := TickStopped(p, arena, w);
    second := TickStopped(p, arena, w);
  }

  /**
   * A `Tick` when the only worker, active or pending, holds a stopped
   * routine: the pump's assertion throws, and the worker stays active.
   */
  method TickStopped(p: AsyncProcessor, arena: Arena, ghost w: CoroutineInfo) returns (error: Option<Exn>)
    requires p.Valid() && p.workers + p.newWorkers == [w] && w.routine.State().IsDone()
    requires Closed(arena.entries) && Fits(arena.entries, w.routine.State())
    modifies p, arena, w, w.routine
    ensures error == Some(AssertFailed(PumpAssertMessage))
    ensures p.Valid() && p.workers == [w] && p.newWorkers == [] && w.isFinished
    ensures w.routine.State() == old(w.routine.State()) && arena.entries == old(arena.entries)
  {
    ghost var ws := p.workers + p.newWorkers;
    ghost var sts, fl, e0 := States(ws), Flags(ws), arena.entries;
    assert sts == [w.routine.State()];
    error := p.Tick(arena);
    AdvancedDoneHead(p.workers, arena.entries, ws, sts, fl, e0, error);
  }

  /** The same steps with the corrected `Stop`: the pending worker is dropped, and the `Tick` finds nothing to do. */
  method StopEverywherePendingThenTick() returns (p: AsyncProcessor, first: Option<Exn>)
    ensures first == None && !p.IsRunning()
  {
    var arena := new Arena([Fresh([Yield(Null)], None)]);
    p := new AsyncProcessor();
    var coroutine := p.Process(0);
    p.StopEverywhere(coroutine);
    first := p.Tick(arena);
  }

  /**
   * A `Tick` when the only worker, active or pending, holds a routine whose
   * pump returns: it is pumped once, and it stays active exactly when its
   * routine is not done.
   */
  method TickOnce(p: AsyncProcessor, arena: Arena, ghost w: CoroutineInfo) returns (error: Option<Exn>)
    requires p.Valid() && p.workers + p.newWorkers == [w]
    requires Closed(arena.entries) && Fits(arena.entries, w.routine.State())
    requires PumpSpec(arena.entries, w.routine.State(), Async).Pumped?
    modifies p, arena, w, w.routine
    ensures var o := old(PumpSpec(arena.entries, w.routine.State(), Async));
            error == None && arena.entries == o.entries && w.routine.State() == o.state && p.newWorkers == []
    ensures var o := old(PumpSpec(arena.entries, w.routine.State(), Async));
            (o.state.IsDone() ==> p.workers == []) && (!o.state.IsDone() ==> p.workers == [w])
  {
    ghost var ws := p.workers + p.newWorkers;
    ghost var sts, fl, e0 := States(ws), Flags(ws), arena.entries;
    SweepSingle(e0, sts[0], Async);
    assert sts == [sts[0]];
    error := p.Tick(arena);
  }

  /**
   * A routine that yields once: the first `Tick` activates and pumps it, and
   * the processor is still running; the second `Tick` finds it exhausted,
   * removes it, and the processor stops running. Neither pump throws.
   */
  method OneYieldTwoTicks() returns (p: AsyncProcessor, first: Option<Exn>, runningAfterFirst: bool,
                                     second: Option<Exn>, runningAfterSecond: bool)
    ensures first == None && runningAfterFirst
    ensures second == None && !runningAfterSecond
  {
    var arena := new Arena([Fresh([Yield(Null)], None)]);
    p := new AsyncProcessor();
    var coroutine := p.Process(0);
    ghost var w := p.newWorkers[0];
    first := TickOnce(p, arena, w);
    runningAfterFirst := p.IsRunning();
    second := TickOnce(p, arena, w);
    runningAfterSecond := p.IsRunning();
  }
}
