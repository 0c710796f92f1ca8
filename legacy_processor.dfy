/**
 * The older `AsyncProcessor`: the same pending and active lists as the newer
 * one, each worker holding a pump (an older `Coroutine`) and an `IsFinished`
 * flag, swept with the `Legacy` lineage. It has no `Stop`; `Process` hands
 * back the pump together with a wait handle that watches the worker's flag.
 */
module LegacyProcessors {
  import opened Wrappers
  import opened CoroutineExceptions
  import opened Producers
  import opened RoutineSpec
  import opened Sweeps
  import opened Walks
  import opened LegacyCoroutines

  class CoroutineInfo {
    var isFinished: bool
    const pump: Coroutine

    constructor (pump: Coroutine)
      ensures this.pump == pump && !isFinished
    {
      this.pump := pump;
      isFinished := false;
    }
  }

  /** The workers of a list, as the set of objects a walk of it may change. */
  function Nodes(ws: seq<CoroutineInfo>): set<CoroutineInfo> {
    set w | w in ws
  }

  /** The pumps the workers of a list hold. */
  function Pumps(ws: seq<CoroutineInfo>): set<Coroutine> {
    set w | w in ws :: w.pump
  }

  /** The state of each worker's routine, in list order. */
  function States(ws: seq<CoroutineInfo>): (sts: seq<RoutineState>)
    reads Pumps(ws)
    ensures |sts| == |ws|
    ensures forall i :: 0 <= i < |ws| ==> sts[i] == ws[i].pump.State()
  {
    seq(|ws|, i requires 0 <= i < |ws| reads Pumps(ws) => ws[i].pump.State())
  }

  /** No pump is held by two workers. */
  predicate Distinct(ws: seq<CoroutineInfo>) {
    forall i, j :: 0 <= i < j < |ws| ==> ws[i].pump != ws[j].pump
  }

  lemma {:induction false} KeepDistinct(ws: seq<CoroutineInfo>, sts: seq<RoutineState>)
    requires |ws| == |sts| && Distinct(ws)
    ensures Distinct(Keep(ws, sts))
    ensures forall w :: w in Keep(ws, sts) ==> w in ws
    decreases |ws|
  {
    if ws != [] {
      var n := |ws| - 1;
      KeepDistinct(ws[..n], sts[..n]);
      var k0 := Keep(ws[..n], sts[..n]);
      assert forall w :: w in k0 ==> w in ws[..n];
      forall w | w in k0
        ensures w.pump != ws[n].pump
      {
        var i :| 0 <= i < n && ws[..n][i] == w;
        assert ws[i] == w;
      }
      assert Keep(ws, sts) == k0 + (if sts[n].IsDone() then [] else [ws[n]]);
    }
  }

  /** The active list left by a sweep holds no pump twice. */
  lemma RemainingDistinct(ws: seq<CoroutineInfo>, sw: Sweep)
    requires Distinct(ws)
    requires sw.fault.None? ==> |sw.states| == |ws|
    requires sw.fault.Some? ==> sw.fault.value.index == |sw.states| < |ws|
    ensures Distinct(Remaining(ws, sw))
  {
    match sw.fault
    case None => KeepDistinct(ws, sw.states);
    case Some(f) =>
      var i := f.index;
      KeepDistinct(ws[..i], sw.states);
      var kept := Keep(ws[..i], sw.states);
      var r := kept + ws[i..];
      forall a, b | 0 <= a < b < |r|
        ensures r[a].pump != r[b].pump
      {
        if b >= |kept| && a < |kept| {
          assert kept[a] in ws[..i];
          var p :| 0 <= p < i && ws[..i][p] == kept[a];
          assert r[b] == ws[i + (b - |kept|)];
        } else if a >= |kept| {
          assert r[a] == ws[i + (a - |kept|)] && r[b] == ws[i + (b - |kept|)];
        }
      }
  }

  /** The `IsFinished` flag of each worker, in list order. */
  function Flags(ws: seq<CoroutineInfo>): (fs: seq<bool>)
    reads Nodes(ws)
    ensures |fs| == |ws|
    ensures forall i :: 0 <= i < |ws| ==> fs[i] == ws[i].isFinished
  {
    seq(|ws|, i requires 0 <= i < |ws| reads Nodes(ws) => ws[i].isFinished)
  }

  /**
   * The workers' routines and flags part way through a walk: the first `k`
   * hold the pumped `states` and are flagged by whether they are done, the
   * rest hold `sts0` and `flags0` as the walk found them.
   */
  ghost predicate Visited(ws: seq<CoroutineInfo>, flags0: seq<bool>, sts0: seq<RoutineState>, k: nat,
                          states: seq<RoutineState>)
    reads Pumps(ws), Nodes(ws)
  {
    |sts0| == |ws| && |flags0| == |ws| && k <= |ws| && |states| == k &&
    (forall i :: 0 <= i < k ==> ws[i].pump.State() == states[i] && ws[i].isFinished == states[i].IsDone()) &&
    (forall i :: k <= i < |ws| ==> ws[i].pump.State() == sts0[i] && ws[i].isFinished == flags0[i])
  }

  /** A worker pumped and flagged, with every other worker as it was: the walk's heap one worker on. */
  twostate lemma VisitStep(new ws: seq<CoroutineInfo>, new flags0: seq<bool>, new sts0: seq<RoutineState>, k: nat,
                           new states: seq<RoutineState>, new st: RoutineState)
    requires old(allocated(ws)) && old(Visited(ws, flags0, sts0, k, states)) && k < |ws|
    requires forall i :: 0 <= i < |ws| && i != k ==>
               ws[i].pump.State() == old(ws[i].pump.State()) && ws[i].isFinished == old(ws[i].isFinished)
    requires ws[k].pump.State() == st && ws[k].isFinished == st.IsDone()
    ensures Visited(ws, flags0, sts0, k + 1, states + [st])
  {
  }

  /** A worker whose pump threw: flagged finished, its routine and every other worker as they were. */
  twostate lemma VisitThrew(new ws: seq<CoroutineInfo>, new flags0: seq<bool>, new sts0: seq<RoutineState>, k: nat,
                            new states: seq<RoutineState>)
    requires old(allocated(ws)) && old(Visited(ws, flags0, sts0, k, states)) && k < |ws|
    requires forall i :: 0 <= i < |ws| && i != k ==>
               ws[i].pump.State() == old(ws[i].pump.State()) && ws[i].isFinished == old(ws[i].isFinished)
    requires ws[k].pump.State() == old(ws[k].pump.State()) && ws[k].isFinished
    ensures Visited(ws, flags0[k := true], sts0, k, states)
  {
  }

  /**
   * The outcome of sweeping the workers `ws`, found holding the states `sts`
   * and the flags `fl`, over the entries `e0`: the entries and the error are
   * the sweep's, the active `list` is what the sweep keeps, and each worker
   * holds the state and flag the sweep left it. The list only loses
   * workers, and without a fault it keeps exactly those not done.
   */
  ghost predicate Advanced(list: seq<CoroutineInfo>, entries: seq<Producer>, ws: seq<CoroutineInfo>,
                           sts: seq<RoutineState>, fl: seq<bool>, e0: seq<Producer>, error: Option<Exn>)
    reads Pumps(ws), Nodes(ws)
    ensures Advanced(list, entries, ws, sts, fl, e0, error) ==>
              |list| <= |ws| && forall x :: x in list ==> x in ws
    ensures Advanced(list, entries, ws, sts, fl, e0, error) && error.None? ==>
              forall i :: 0 <= i < |ws| ==> (ws[i] in list <==> !ws[i].pump.State().IsDone())
  {
    |sts| == |ws| && |fl| == |ws| && Closed(e0) && AllFit(e0, sts) &&
    var sw := SweepSpec(e0, sts, Legacy);
    entries == sw.entries && error == FaultError(sw) && list == Remaining(ws, sw) &&
    forall i :: 0 <= i < |ws| ==>
      ws[i].pump.State() == StateAfter(sw, i, sts[i]) && ws[i].isFinished == FinishedAfter(sw, i, fl[i])
  }

  /** Sweeping no workers changes nothing and throws nothing. */
  lemma AdvancedEmpty(entries: seq<Producer>)
    requires Closed(entries)
    ensures Advanced([], entries, [], [], [], entries, None)
  {
  }

  /** `AdvanceFrameAll`'s `try` block: pumps one worker and sets its flag; no other worker changes. */
  method AdvanceWorker(worker: CoroutineInfo, arena: Arena, ghost ws: seq<CoroutineInfo>, ghost k: nat)
    returns (r: Result<bool, Exn>)
    requires Closed(arena.entries) && Fits(arena.entries, worker.pump.State())
    requires Distinct(ws) && k < |ws| && ws[k] == worker
    modifies worker, worker.pump, arena
    ensures forall i :: 0 <= i < |ws| && i != k ==>
              ws[i].pump.State() == old(ws[i].pump.State()) && ws[i].isFinished == old(ws[i].isFinished)
    ensures match PumpSpec(old(arena.entries), old(worker.pump.State()), Legacy)
            case Threw(error, entries) =>
              r == Err(error) && arena.entries == entries && worker.pump.State() == old(worker.pump.State()) &&
              worker.isFinished
            case Pumped(entries, state, more) =>
              r == Ok(more) && arena.entries == entries && worker.pump.State() == state &&
              worker.isFinished == state.IsDone()
  {
    r := worker.pump.Pump(arena);
    if r.Err? {
      worker.isFinished := true;
      return;
    }
    worker.isFinished := worker.pump.IsDone();
  }

  class AsyncProcessor {
    var newWorkers: seq<CoroutineInfo>
    var workers: seq<CoroutineInfo>

    predicate Valid()
      reads this
    {
      Distinct(workers + newWorkers)
    }

    constructor ()
      ensures Valid() && workers == [] && newWorkers == [] && !IsRunning()
    {
      newWorkers := [];
      workers := [];
    }

    function IsRunning(): (running: bool)
      reads this
      ensures running <==> workers + newWorkers != []
    {
      workers != [] || newWorkers != []
    }

    /**
     * `Process`: a new pump on `process`, queued as pending and not yet
     * pumped, handed back with a wait handle on its worker.
     */
    method Process(process: Id) returns (pump: Coroutine, wait: WaitUntilFinished)
      requires Valid()
      modifies this
      ensures Valid() && IsRunning()
      ensures fresh(pump) && pump.State() == Initial(process)
      ensures fresh(wait) && wait.worker.pump == pump && !wait.ended
      ensures workers == old(workers) && newWorkers == old(newWorkers) + [wait.worker]
      ensures fresh(wait.worker) && !wait.worker.isFinished
    {
      pump := new Coroutine(process);
      var data := new CoroutineInfo(pump);
      newWorkers := newWorkers + [data];
      assert workers + newWorkers == old(workers + newWorkers) + [data];
      wait := new WaitUntilFinished(data);
    }

    /** Moves every pending worker, in order, to the end of the active list. */
    method AddNewWorkers()
      modifies this
      ensures workers == old(workers + newWorkers) && newWorkers == []
      ensures States(workers) == old(States(workers + newWorkers)) && Flags(workers) == old(Flags(workers + newWorkers))
    {
      for i := 0 to |newWorkers|
        invariant newWorkers == old(newWorkers)
        invariant workers == old(workers) + newWorkers[..i]
      {
        workers := workers + [newWorkers[i]];
      }
      assert newWorkers[..|newWorkers|] == newWorkers;
      newWorkers := [];
    }

    /**
     * The walk of the active list, after `k` of the workers `ws` it started
     * with: those were pumped into `states` and flagged by whether they are
     * done, the rest are untouched, the list holds the kept ones before `pos`
     * and the unvisited ones from `pos`, and `whole` is what is left to see
     * of the sweep.
     */
    ghost predicate Walking(arena: Arena, ws: seq<CoroutineInfo>, flags0: seq<bool>, whole: Sweep,
                            sts0: seq<RoutineState>, k: nat, states: seq<RoutineState>, pos: nat)
      reads this, arena, Pumps(ws), Nodes(ws)
    {
      Distinct(ws) && Swept(Legacy, whole, arena.entries, sts0, k, states) &&
      Visited(ws, flags0, sts0, k, states) && Listed(workers, ws, k, states, pos)
    }

    /** The walk stopped at worker `k`, whose pump threw `error`: that worker is flagged, nothing else changed. */
    ghost predicate Faulted(arena: Arena, ws: seq<CoroutineInfo>, flags0: seq<bool>, whole: Sweep,
                            sts0: seq<RoutineState>, k: nat, states: seq<RoutineState>, pos: nat, error: Exn)
      reads this, arena, Pumps(ws), Nodes(ws)
    {
      k < |ws| && |flags0| == |ws| && whole == Sweep(arena.entries, states, Some(Fault(k, error))) &&
      Visited(ws, flags0[k := true], sts0, k, states) && Listed(workers, ws, k, states, pos)
    }

    /**
     * The node at `pos`, just pumped to `st`, is unlinked when `done` and kept
     * otherwise; `next` is the position of the node to visit after it.
     */
    method Relist(pos: nat, done: bool, ghost ws: seq<CoroutineInfo>, ghost k: nat,
                  ghost states: seq<RoutineState>, ghost st: RoutineState)
      returns (next: nat)
      requires Listed(workers, ws, k, states, pos) && k < |ws| && done == st.IsDone()
      modifies this
      ensures newWorkers == old(newWorkers)
      ensures workers == if done then old(workers[..pos] + workers[pos + 1..]) else old(workers)
      ensures next == if done then pos else pos + 1
      ensures Listed(workers, ws, k + 1, states + [st], next)
    {
      if done {
        ListedDrop(workers, ws, k, states, pos, st);
        workers := workers[..pos] + workers[pos + 1..];
        next := pos;
      } else {
        ListedKeep(workers, ws, k, states, pos, st);
        next := pos + 1;
      }
    }

    /**
     * One node of the walk: pumps its worker, flags it, and unlinks it when
     * its routine is done; the next node is the one after it either way.
     */
    method AdvanceNode(arena: Arena, pos: nat, ghost ws: seq<CoroutineInfo>, ghost flags0: seq<bool>,
                       ghost whole: Sweep, ghost sts0: seq<RoutineState>, ghost k: nat, ghost states: seq<RoutineState>)
      returns (error: Option<Exn>, next: nat, ghost states': seq<RoutineState>)
      requires Walking(arena, ws, flags0, whole, sts0, k, states, pos) && k < |ws|
      modifies this, arena, ws[k], ws[k].pump
      ensures newWorkers == old(newWorkers)
      ensures error.None? ==> Swept(Legacy, whole, arena.entries, sts0, k + 1, states')
      ensures error.None? ==> Visited(ws, flags0, sts0, k + 1, states')
      ensures error.None? ==> Listed(workers, ws, k + 1, states', next)
      ensures error.Some? ==> next == pos && states' == states && Faulted(arena, ws, flags0, whole, sts0, k, states, pos, error.value)
    {
      ListedAt(workers, ws, k, states, pos);
      var worker := workers[pos];
      assert worker.pump.State() == sts0[k];
      ghost var e := arena.entries;
      var r := AdvanceWorker(worker, arena, ws, k);
      if r.Err? {
        SweptThrew(Legacy, whole, e, sts0, k, states);
        VisitThrew(ws, flags0, sts0, k, states);
        error, next, states' := Some(r.error), pos, states;
      } else {
        ghost var o := PumpSpec(e, sts0[k], Legacy);
        SweptPumped(Legacy, whole, e, sts0, k, states);
        states' := states + [o.state];
        next := Relist(pos, worker.isFinished, ws, k, states, o.state);
        VisitStep(ws, flags0, sts0, k, states, o.state);
        error := None;
      }
    }

    /**
     * A walk that ran past the last node, or stopped on the pump that threw
     * `error`, has carried out `whole`, the sweep of the list `ws` it started
     * with over the entries `e0`.
     */
    lemma WalkEnds(arena: Arena, ws: seq<CoroutineInfo>, flags0: seq<bool>, whole: Sweep, e0: seq<Producer>,
                   sts0: seq<RoutineState>, k: nat, states: seq<RoutineState>, pos: nat, error: Option<Exn>)
      requires error.None? ==> Walking(arena, ws, flags0, whole, sts0, k, states, pos) && pos == |workers|
      requires error.Some? ==> Faulted(arena, ws, flags0, whole, sts0, k, states, pos, error.value)
      requires Closed(e0) && AllFit(e0, sts0) && whole == SweepSpec(e0, sts0, Legacy) && |sts0| == |ws|
      ensures Advanced(workers, arena.entries, ws, sts0, flags0, e0, error)
    {
      if error.None? {
        ListedAll(workers, ws, k, states, pos);
        SweptAll(Legacy, whole, arena.entries, sts0, k, states);
      } else {
        ListedSplit(workers, ws, k, states, pos);
      }
    }

    /**
     * The walk itself: from the head of the list, advances node after node
     * until it runs past the last one or a pump throws.
     */
    method Walk(arena: Arena, ghost ws: seq<CoroutineInfo>, ghost flags0: seq<bool>, ghost whole: Sweep,
                ghost sts0: seq<RoutineState>)
      returns (error: Option<Exn>, pos: nat, ghost k: nat, ghost states: seq<RoutineState>)
      requires Walking(arena, ws, flags0, whole, sts0, 0, [], 0)
      modifies this, arena, Pumps(ws), Nodes(ws)
      ensures newWorkers == old(newWorkers)
      ensures error.None? ==> Walking(arena, ws, flags0, whole, sts0, k, states, pos) && pos == |workers|
      ensures error.Some? ==> Faulted(arena, ws, flags0, whole, sts0, k, states, pos, error.value)
    {
      k, states, pos, error := 0, [], 0, None;
      while pos < |workers|
        invariant Walking(arena, ws, flags0, whole, sts0, k, states, pos)
        invariant newWorkers == old(newWorkers) && error.None?
        decreases |ws| - k
      {
        assert |workers[pos..]| == |ws[k..]|;
        error, pos, states := AdvanceNode(arena, pos, ws, flags0, whole, sts0, k, states);
        if error.Some? {
          return;
        }
        k := k + 1;
      }
    }

    /**
     * Pumps every active worker once, in order, and removes those whose
     * routine is then done. A pump that throws flags its worker finished and
     * ends the sweep; that worker is not removed.
     */
    method AdvanceFrameAll(arena: Arena) returns (error: Option<Exn>)
      requires Distinct(workers) && Closed(arena.entries) && AllFit(arena.entries, States(workers))
      modifies this, arena, Pumps(workers), Nodes(workers)
      ensures newWorkers == old(newWorkers) && Distinct(workers)
      ensures Advanced(workers, arena.entries, old(workers), old(States(workers)), old(Flags(workers)),
                       old(arena.entries), error)
    {
      ghost var ws := workers;
      ghost var sts0 := States(ws);
      ghost var flags0 := Flags(ws);
      ghost var e0 := arena.entries;
      ghost var whole := SweepSpec(e0, sts0, Legacy);
      SweptStart(Legacy, e0, sts0);
      ListedStart(ws);
      var pos;
      ghost var k, states;
      error, pos, k, states := Walk(arena, ws, flags0, whole, sts0);
      WalkEnds(arena, ws, flags0, whole, e0, sts0, k, states, pos, error);
      RemainingDistinct(ws, whole);
    }

    /**
     * One frame: the pending workers join the end of the active list; if that
     * list is empty nothing more happens; otherwise it is swept, and, if no
     * pump threw, the (now empty) pending list is added once more.
     */
    method Tick(arena: Arena) returns (error: Option<Exn>)
      requires Valid() && Closed(arena.entries) && AllFit(arena.entries, States(workers + newWorkers))
      modifies this, arena, Pumps(workers + newWorkers), Nodes(workers + newWorkers)
      ensures Valid() && newWorkers == []
      ensures Advanced(workers, arena.entries, old(workers + newWorkers), old(States(workers + newWorkers)),
                       old(Flags(workers + newWorkers)), old(arena.entries), error)
    {
      ghost var ws := workers + newWorkers;
      ghost var sts := States(ws);
      ghost var fl := Flags(ws);
      ghost var e0 := arena.entries;
      AddNewWorkers();
      if workers == [] {
        AdvancedEmpty(arena.entries);
        return None;
      }
      error := AdvanceFrameAll(arena);
      if error.None? {
        AddNewWorkers();
        assert workers + [] == workers;
      }
    }
  }

  /**
   * The enumerator `WaitUntilFinished` returns: each step yields while the
   * worker is not flagged finished, and the first step that finds the flag set
   * ends it for good.
   */
  class WaitUntilFinished {
    const worker: CoroutineInfo
    /** Whether a step has already run off the end of the loop. */
    var ended: bool

    constructor (worker: CoroutineInfo)
      ensures this.worker == worker && !ended
    {
      this.worker := worker;
      ended := false;
    }

    /** One step: `true` while the worker is unfinished, `false` from the first step that sees it finished. */
    method MoveNext() returns (more: bool)
      modifies this
      ensures more <==> !old(ended) && !worker.isFinished
      ensures ended <==> !more
    {
      if ended {
        return false;
      }
      more := !worker.isFinished;
      ended := !more;
    }
  }
}
