/**
 * The walk of a processor's active list, shared by both processors: what the
 * list, the arena and the thrown exception are after a sweep, and the ghost
 * bookkeeping that ties a walk part way through to the sweep of the whole
 * list.
 */
module Walks {
  import opened Wrappers
  import opened CoroutineExceptions
  import opened Producers
  import opened RoutineSpec
  import opened Sweeps

  /** What a sweep throws out of `AdvanceFrameAll`, if anything. */
  function FaultError(sw: Sweep): Option<Exn> {
    match sw.fault
    case None => None
    case Some(f) => Some(f.error)
  }

  /**
   * The active list after a sweep: the workers whose routine is not done,
   * and, when a pump threw, the worker whose pump threw and all after it.
   * A worker stays exactly when the sweep did not leave its routine done.
   */
  function Remaining<T>(ws: seq<T>, sw: Sweep): (r: seq<T>)
    requires sw.fault.None? ==> |sw.states| == |ws|
    requires sw.fault.Some? ==> sw.fault.value.index == |sw.states| < |ws|
    ensures |r| <= |ws|
    ensures forall i :: 0 <= i < |ws| && (i < |sw.states| ==> !sw.states[i].IsDone()) ==> ws[i] in r
    ensures forall j :: 0 <= j < |r| ==>
              exists i :: 0 <= i < |ws| && r[j] == ws[i] && (i < |sw.states| ==> !sw.states[i].IsDone())
  {
    RemainingMembers(ws, sw);
    match sw.fault
    case None => Keep(ws, sw.states)
    case Some(f) => Keep(ws[..f.index], sw.states) + ws[f.index..]
  }

  /** Who stays listed after a sweep, for both ways a sweep ends. */
  lemma RemainingMembers<T>(ws: seq<T>, sw: Sweep)
    requires sw.fault.None? ==> |sw.states| == |ws|
    requires sw.fault.Some? ==> sw.fault.value.index == |sw.states| < |ws|
    ensures var n := |sw.states|;
            var r := if sw.fault.None? then Keep(ws, sw.states) else Keep(ws[..n], sw.states) + ws[n..];
            (forall i :: 0 <= i < |ws| && (i < n ==> !sw.states[i].IsDone()) ==> ws[i] in r) &&
            (forall j :: 0 <= j < |r| ==> exists i :: 0 <= i < |ws| && r[j] == ws[i] && (i < n ==> !sw.states[i].IsDone()))
  {
    var n := |sw.states|;
    var front := ws[..n];
    KeepMembers(front, sw.states);
    var kept := Keep(front, sw.states);
    var r := if sw.fault.None? then Keep(ws, sw.states) else kept + ws[n..];
    assert sw.fault.None? ==> front == ws;
    assert r == kept + ws[n..];
    forall i | 0 <= i < |ws| && (i < n ==> !sw.states[i].IsDone())
      ensures ws[i] in r
    {
      if i < n {
        assert front[i] == ws[i];
      } else {
        assert ws[i] == ws[n..][i - n];
      }
    }
    forall j | 0 <= j < |r|
      ensures exists i :: 0 <= i < |ws| && r[j] == ws[i] && (i < n ==> !sw.states[i].IsDone())
    {
      if j < |kept| {
        var i :| 0 <= i < |front| && front[i] == kept[j] && !sw.states[i].IsDone();
        assert r[j] == ws[i];
      } else {
        assert r[j] == ws[n + (j - |kept|)];
      }
    }
  }

  /** The state of routine `i` after a sweep, given its state before: pumped if the sweep reached it. */
  function StateAfter(sw: Sweep, i: nat, before: RoutineState): RoutineState {
    if i < |sw.states| then sw.states[i] else before
  }

  /**
   * The `IsFinished` flag of worker `i` after a sweep, given its flag before:
   * a worker the sweep pumped is flagged exactly when its routine is done, the
   * worker whose pump threw is flagged, and one the sweep never reached keeps
   * its flag.
   */
  function FinishedAfter(sw: Sweep, i: nat, before: bool): (f: bool)
    ensures i < |sw.states| ==> (f <==> sw.states[i].IsDone())
    ensures sw.fault.Some? && i == sw.fault.value.index && i >= |sw.states| ==> f
    ensures i >= |sw.states| && !(sw.fault.Some? && i == sw.fault.value.index) ==> f == before
  {
    if i < |sw.states| then sw.states[i].IsDone()
    else if sw.fault.Some? && i == sw.fault.value.index then true
    else before
  }

  /**
   * The sweep `whole` of the list the walk started with, seen after `k`
   * workers: their pumps gave `states`, and the rest is the sweep of the
   * remaining routines over the entries as they are now.
   */
  ghost predicate Swept(lineage: Lineage, whole: Sweep, e: seq<Producer>, sts0: seq<RoutineState>, k: nat,
                        states: seq<RoutineState>) {
    Closed(e) && AllFit(e, sts0) && k <= |sts0| && |states| == k &&
    whole == Behind(states, SweepSpec(e, sts0[k..], lineage))
  }

  lemma SweptStart(lineage: Lineage, e0: seq<Producer>, sts0: seq<RoutineState>)
    requires Closed(e0) && AllFit(e0, sts0)
    ensures Swept(lineage, SweepSpec(e0, sts0, lineage), e0, sts0, 0, [])
  {
    var r := SweepSpec(e0, sts0, lineage);
    assert sts0[0..] == sts0 && [] + r.states == r.states;
  }

  /** A pump that returns moves the walk on by its new state. */
  lemma SweptPumped(lineage: Lineage, whole: Sweep, e: seq<Producer>, sts0: seq<RoutineState>, k: nat, states: seq<RoutineState>)
    requires Swept(lineage, whole, e, sts0, k, states) && k < |sts0| && PumpSpec(e, sts0[k], lineage).Pumped?
    ensures var o := PumpSpec(e, sts0[k], lineage);
            Swept(lineage, whole, o.entries, sts0, k + 1, states + [o.state])
  {
    SweepFromPumped(e, sts0, k, lineage);
    var o := PumpSpec(e, sts0[k], lineage);
    BehindBehind(states, [o.state], SweepSpec(o.entries, sts0[k + 1..], lineage));
  }

  /** A pump that throws ends the sweep of the whole list, at that worker. */
  lemma SweptThrew(lineage: Lineage, whole: Sweep, e: seq<Producer>, sts0: seq<RoutineState>, k: nat, states: seq<RoutineState>)
    requires Swept(lineage, whole, e, sts0, k, states) && k < |sts0| && PumpSpec(e, sts0[k], lineage).Threw?
    ensures var o := PumpSpec(e, sts0[k], lineage);
            whole == Sweep(o.entries, states, Some(Fault(k, o.error)))
  {
    SweepFromThrew(e, sts0, k, lineage);
    assert states + [] == states;
  }

  /** A walk past the last worker has swept the whole list without a fault. */
  lemma SweptAll(lineage: Lineage, whole: Sweep, e: seq<Producer>, sts0: seq<RoutineState>, k: nat, states: seq<RoutineState>)
    requires Swept(lineage, whole, e, sts0, k, states) && k == |sts0|
    ensures whole == Sweep(e, states, None)
  {
    assert sts0[k..] == [] && states + [] == states;
  }

  /**
   * The active list part way through a walk: the kept workers among the
   * first `k` before `pos`, and from `pos` the workers not yet visited.
   */
  ghost predicate Listed<T>(list: seq<T>, ws: seq<T>, k: nat, states: seq<RoutineState>, pos: nat) {
    k <= |ws| && |states| == k && pos <= |list| && list[..pos] == Keep(ws[..k], states) && list[pos..] == ws[k..]
  }

  lemma ListedStart<T>(ws: seq<T>)
    ensures Listed(ws, ws, 0, [], 0)
  {
    assert ws[..0] == [];
  }

  /** The node at `pos` holds the next worker to visit. */
  lemma ListedAt<T>(list: seq<T>, ws: seq<T>, k: nat, sts: seq<RoutineState>, pos: nat)
    requires Listed(list, ws, k, sts, pos) && k < |ws|
    ensures pos < |list| && list[pos] == ws[k]
  {
    assert list[pos] == list[pos..][0];
  }

  /** One node on, its routine done: the node at `pos` is unlinked and the walk stays at `pos`. */
  lemma ListedDrop<T>(list: seq<T>, ws: seq<T>, k: nat, sts: seq<RoutineState>, pos: nat, st: RoutineState)
    requires Listed(list, ws, k, sts, pos) && k < |ws| && st.IsDone()
    ensures Listed(list[..pos] + list[pos + 1..], ws, k + 1, sts + [st], pos)
  {
    KeepExtend(ws, sts, st, k);
    assert list[pos] == list[pos..][0];
    var list' := list[..pos] + list[pos + 1..];
    assert list'[..pos] == list[..pos];
    assert list'[pos..] == list[pos + 1..];
  }

  /** One node on, its routine not done: the node at `pos` stays and the walk moves past it. */
  lemma ListedKeep<T>(list: seq<T>, ws: seq<T>, k: nat, sts: seq<RoutineState>, pos: nat, st: RoutineState)
    requires Listed(list, ws, k, sts, pos) && k < |ws| && !st.IsDone()
    ensures Listed(list, ws, k + 1, sts + [st], pos + 1)
  {
    KeepExtend(ws, sts, st, k);
    assert list[pos] == list[pos..][0];
    assert list[..pos + 1] == list[..pos] + [list[pos]];
  }

  /** A list walked to its end holds the workers kept. */
  lemma ListedAll<T>(list: seq<T>, ws: seq<T>, k: nat, states: seq<RoutineState>, pos: nat)
    requires Listed(list, ws, k, states, pos) && pos == |list|
    ensures k == |ws| && list == Keep(ws, states)
  {
    assert |list[pos..]| == |ws[k..]|;
    assert ws[..k] == ws && list[..pos] == list;
  }

  /** A list walked up to `pos`: the workers kept before it, then the rest as they were. */
  lemma ListedSplit<T>(list: seq<T>, ws: seq<T>, k: nat, states: seq<RoutineState>, pos: nat)
    requires Listed(list, ws, k, states, pos)
    ensures list == Keep(ws[..k], states) + ws[k..]
  {
    assert list == list[..pos] + list[pos..];
  }

}
