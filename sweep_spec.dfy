/**
 * Pumping a list of routines once each, in list order, as both processors'
 * `AdvanceFrameAll` and each round of `MakeParallelGroup` do; and the rounds
 * of `MakeParallelGroup`, repeated until every routine is done.
 */
module Sweeps {
  import opened Wrappers
  import opened CoroutineExceptions
  import opened Producers
  import opened ObjectTraces
  import opened RoutineSpec

  predicate AllFit(e: seq<Producer>, sts: seq<RoutineState>) {
    forall i :: 0 <= i < |sts| ==> Fits(e, sts[i])
  }

  /** The position of the routine whose pump threw, and what it threw. */
  datatype Fault = Fault(index: nat, error: Exn)

  datatype Sweep = Sweep(entries: seq<Producer>, states: seq<RoutineState>, fault: Option<Fault>)

  /**
   * Pumps each routine once, in order; the first pump that throws ends the
   * sweep. The states are those of the routines pumped before it; that
   * routine and those after it are left as they were.
   */
  function SweepSpec(e: seq<Producer>, sts: seq<RoutineState>, lineage: Lineage): (r: Sweep)
    requires Closed(e) && AllFit(e, sts)
    ensures |r.entries| == |e| && Closed(r.entries)
    ensures r.fault.None? ==> |r.states| == |sts|
    ensures r.fault.Some? ==> r.fault.value.index == |r.states| < |sts|
    decreases |sts|
  {
    if sts == [] then Sweep(e, [], None)
    else match PumpSpec(e, sts[0], lineage)
      case Threw(error, e') => Sweep(e', [], Some(Fault(0, error)))
      case Pumped(e', st', _) => Behind([st'], SweepSpec(e', sts[1..], lineage))
  }

  /** The sweep of the rest of a list, after the routines before it were pumped into `pumped`. */
  function Behind(pumped: seq<RoutineState>, r: Sweep): (b: Sweep)
    ensures b.entries == r.entries && b.states == pumped + r.states
    ensures b.fault.None? <==> r.fault.None?
    ensures b.fault.Some? ==> b.fault.value == Fault(|pumped| + r.fault.value.index, r.fault.value.error)
  {
    match r.fault
    case None => Sweep(r.entries, pumped + r.states, None)
    case Some(f) => Sweep(r.entries, pumped + r.states, Some(Fault(|pumped| + f.index, f.error)))
  }

  lemma BehindBehind(a: seq<RoutineState>, b: seq<RoutineState>, r: Sweep)
    ensures Behind(a, Behind(b, r)) == Behind(a + b, r)
  {
    assert a + (b + r.states) == (a + b) + r.states;
  }

  /** Whether a routine fits depends only on the size of the arena. */
  lemma AllFitResized(e: seq<Producer>, e': seq<Producer>, sts: seq<RoutineState>)
    requires AllFit(e, sts) && |e'| == |e|
    ensures AllFit(e', sts)
  {
  }

  /** The sweep from routine `k` on, when its pump returns: its new state, then the sweep from `k + 1` on the entries that pump left. */
  lemma SweepFromPumped(e: seq<Producer>, sts: seq<RoutineState>, k: nat, lineage: Lineage)
    requires Closed(e) && AllFit(e, sts) && k < |sts|
    requires PumpSpec(e, sts[k], lineage).Pumped?
    ensures var o := PumpSpec(e, sts[k], lineage);
            AllFit(o.entries, sts) &&
            SweepSpec(e, sts[k..], lineage) == Behind([o.state], SweepSpec(o.entries, sts[k + 1..], lineage))
  {
    assert sts[k..][0] == sts[k] && sts[k..][1..] == sts[k + 1..];
  }

  /** The sweep from routine `k` on, when its pump throws: that fault, with the entries that pump left. */
  lemma SweepFromThrew(e: seq<Producer>, sts: seq<RoutineState>, k: nat, lineage: Lineage)
    requires Closed(e) && AllFit(e, sts) && k < |sts|
    requires PumpSpec(e, sts[k], lineage).Threw?
    ensures var o := PumpSpec(e, sts[k], lineage);
            SweepSpec(e, sts[k..], lineage) == Sweep(o.entries, [], Some(Fault(0, o.error)))
  {
    assert sts[k..][0] == sts[k];
  }

  /** A sweep whose first routine is done throws the pump's assertion at once, changing nothing. */
  lemma SweepDoneHead(e: seq<Producer>, sts: seq<RoutineState>, lineage: Lineage)
    requires Closed(e) && AllFit(e, sts) && sts != [] && sts[0].IsDone()
    ensures SweepSpec(e, sts, lineage) == Sweep(e, [], Some(Fault(0, AssertFailed(PumpAssertMessage))))
  {
    PumpProperties(e, sts[0], lineage);
  }

  /** A sweep leaves every script as it was, and every routine within the arena. */
  lemma {:induction false} SweepKeeps(e: seq<Producer>, sts: seq<RoutineState>, lineage: Lineage)
    requires Closed(e) && AllFit(e, sts)
    ensures var r := SweepSpec(e, sts, lineage);
            ScriptsOf(r.entries) == ScriptsOf(e) && AllFit(r.entries, r.states)
    decreases |sts|
  {
    if sts != [] {
      var o := PumpSpec(e, sts[0], lineage);
      if o.Pumped? {
        SweepKeeps(o.entries, sts[1..], lineage);
      }
    }
  }

  /** Keeps the items whose routine is not done, in their order. */
  function Keep<T>(xs: seq<T>, sts: seq<RoutineState>): (kept: seq<T>)
    requires |xs| == |sts|
    ensures |kept| <= |xs|
    decreases |xs|
  {
    if xs == [] then []
    else
      var n := |xs| - 1;
      Keep(xs[..n], sts[..n]) + (if sts[n].IsDone() then [] else [xs[n]])
  }

  lemma KeepExtend<T>(xs: seq<T>, sts: seq<RoutineState>, st: RoutineState, k: nat)
    requires k < |xs| && |sts| == k
    ensures Keep(xs[..k + 1], sts + [st]) == Keep(xs[..k], sts) + (if st.IsDone() then [] else [xs[k]])
  {
    assert xs[..k + 1][..k] == xs[..k];
    assert (sts + [st])[..k] == sts;
  }

  /** The items kept from the first `i + 1`: those kept from the first `i`, then item `i` if its routine is not done. */
  lemma KeepNext<T>(xs: seq<T>, sts: seq<RoutineState>, i: nat)
    requires |xs| == |sts| && i < |xs|
    ensures sts[i].IsDone() ==> Keep(xs[..i + 1], sts[..i + 1]) == Keep(xs[..i], sts[..i])
    ensures !sts[i].IsDone() ==> Keep(xs[..i + 1], sts[..i + 1]) == Keep(xs[..i], sts[..i]) + [xs[i]]
  {
    KeepExtend(xs, sts[..i], sts[i], i);
    assert sts[..i] + [sts[i]] == sts[..i + 1];
  }

  /** An item is kept exactly when its routine is not done. */
  lemma {:induction false} KeepMembers<T>(xs: seq<T>, sts: seq<RoutineState>)
    requires |xs| == |sts|
    ensures forall i :: 0 <= i < |xs| && !sts[i].IsDone() ==> xs[i] in Keep(xs, sts)
    ensures forall j :: 0 <= j < |Keep(xs, sts)| ==>
              exists i :: 0 <= i < |xs| && xs[i] == Keep(xs, sts)[j] && !sts[i].IsDone()
    decreases |xs|
  {
    if xs != [] {
      var n := |xs| - 1;
      var init, sinit := xs[..n], sts[..n];
      KeepMembers(init, sinit);
      var k0 := Keep(init, sinit);
      var k := Keep(xs, sts);
      assert k == k0 + (if sts[n].IsDone() then [] else [xs[n]]);
      forall j | 0 <= j < |Keep(xs, sts)|
        ensures exists i :: 0 <= i < |xs| && xs[i] == k[j] && !sts[i].IsDone()
      {
        if j < |k0| {
          var i :| 0 <= i < |init| && init[i] == k0[j] && !sinit[i].IsDone();
          assert xs[i] == k[j] && !sts[i].IsDone();
        } else {
          assert xs[n] == k[j] && !sts[n].IsDone();
        }
      }
      forall i | 0 <= i < |xs| && !sts[i].IsDone()
        ensures xs[i] in k
      {
        if i < n {
          assert init[i] == xs[i] && !sinit[i].IsDone();
          assert xs[i] in k0;
        }
      }
    } else {
      assert Keep(xs, sts) == [];
    }
  }

  /** Keeping some items of a list without repeats gives a list without repeats, of items of the list. */
  lemma {:induction false} KeepUnique<T>(xs: seq<T>, sts: seq<RoutineState>)
    requires |xs| == |sts| && forall i, j :: 0 <= i < j < |xs| ==> xs[i] != xs[j]
    ensures forall i, j :: 0 <= i < j < |Keep(xs, sts)| ==> Keep(xs, sts)[i] != Keep(xs, sts)[j]
    ensures forall x :: x in Keep(xs, sts) ==> x in xs
    decreases |xs|
  {
    if xs != [] {
      var n := |xs| - 1;
      KeepUnique(xs[..n], sts[..n]);
      var k0 := Keep(xs[..n], sts[..n]);
      forall x | x in k0
        ensures x != xs[n]
      {
        var i :| 0 <= i < n && xs[..n][i] == x;
      }
      var k := Keep(xs, sts);
      assert k == k0 + (if sts[n].IsDone() then [] else [xs[n]]);
      forall x | x in k
        ensures x in xs
      {
        if x in k0 {
          assert x in xs[..n];
        }
      }
      forall i, j | 0 <= i < j < |k|
        ensures k[i] != k[j]
      {
        if j >= |k0| {
          assert k[i] in k0;
        }
      }
    } else {
      assert Keep(xs, sts) == [];
    }
  }

  /** The routines left after a round: those not done. */
  function Live(sts: seq<RoutineState>): (live: seq<RoutineState>)
    ensures forall i :: 0 <= i < |live| ==> !live[i].IsDone()
  {
    KeepMembers(sts, sts);
    Keep(sts, sts)
  }

  // ---------------------------------------------------------------------------
  // Rounds of a parallel group. Termination rests on the potential of every
  // stack: a pump that does not throw lowers its own routine's potential and
  // raises no other's.

  /** Every producer costs no more in `e'` than in `e`. */
  predicate NoCostlier(e: seq<Producer>, e': seq<Producer>)
    requires Wf(e) && Wf(e') && ScriptsOf(e') == ScriptsOf(e)
  {
    WfClosed(e);
    WfClosed(e');
    forall i :: 0 <= i < |e| ==> Rem(ScriptsOf(e'), e'[i], i) <= Rem(ScriptsOf(e), e[i], i)
  }

  lemma {:induction false} PotentialMono(e: seq<Producer>, e': seq<Producer>, stack: seq<Id>)
    requires Wf(e) && Wf(e') && ScriptsOf(e') == ScriptsOf(e) && NoCostlier(e, e') && StackWf(e, stack)
    ensures StackWf(e', stack) && Potential(e', stack) <= Potential(e, stack)
    decreases |stack|
  {
    if stack != [] {
      PotentialMono(e, e', stack[1..]);
    }
  }

  /** A pump that does not throw makes no producer costlier. */
  lemma PumpNoCostlier(e: seq<Producer>, st: RoutineState, lineage: Lineage)
    requires Runnable(e, st)
    ensures var o := PumpSpec(e, st, lineage);
            o.Pumped? ==> Wf(o.entries) && ScriptsOf(o.entries) == ScriptsOf(e) && NoCostlier(e, o.entries)
  {
    WfClosed(e);
    var o := PumpSpec(e, st, lineage);
    if o.Pumped? {
      var top := st.stack[0];
      assert Advance(e[top]).0.Moved? && o.entries == e[top := Advance(e[top]).1];
      AdvanceNoCostlier(e, top);
    }
  }

  /** Advancing one producer that does not throw makes no producer costlier. */
  lemma AdvanceNoCostlier(e: seq<Producer>, top: Id)
    requires Wf(e) && top < |e| && Advance(e[top]).0.Moved?
    ensures var e' := e[top := Advance(e[top]).1];
            Wf(e') && ScriptsOf(e') == ScriptsOf(e) && NoCostlier(e, e')
  {
    WfClosed(e);
    AdvanceKeepsWf(e, top);
    var p := e[top];
    var e' := e[top := Advance(p).1];
    WfClosed(e');
    if Advance(p).0 == Moved(true) {
      AdvanceYieldRem(ScriptsOf(e), p, top);
    } else {
      assert e' == e;
    }
    assert forall i :: 0 <= i < |e| && i != top ==> e'[i] == e[i];
  }

  lemma NoCostlierTrans(e: seq<Producer>, e': seq<Producer>, e'': seq<Producer>)
    requires Wf(e) && Wf(e') && Wf(e'') && ScriptsOf(e') == ScriptsOf(e) && ScriptsOf(e'') == ScriptsOf(e)
    requires NoCostlier(e, e') && NoCostlier(e', e'')
    ensures NoCostlier(e, e'')
  {
  }

  /** A routine that is done, or may be pumped again. */
  predicate Settled(e: seq<Producer>, st: RoutineState) {
    StackWf(e, st.stack) && IdsIn(e, st.finished) && (st.IsDone() || st.returnValue == Null)
  }

  predicate AllSettled(e: seq<Producer>, sts: seq<RoutineState>) {
    forall i :: 0 <= i < |sts| ==> Settled(e, sts[i])
  }

  predicate AllRunnable(e: seq<Producer>, sts: seq<RoutineState>) {
    forall i :: 0 <= i < |sts| ==> Runnable(e, sts[i])
  }

  predicate AllStackWf(e: seq<Producer>, sts: seq<RoutineState>) {
    forall i :: 0 <= i < |sts| ==> StackWf(e, sts[i].stack)
  }

  /** The potential of every routine of a list. */
  function TotalPotential(e: seq<Producer>, sts: seq<RoutineState>): nat
    requires Wf(e) && AllStackWf(e, sts)
    decreases |sts|
  {
    if sts == [] then 0
    else
      var n := |sts| - 1;
      TotalPotential(e, sts[..n]) + Potential(e, sts[n].stack)
  }

  lemma {:induction false} TotalPotentialMono(e: seq<Producer>, e': seq<Producer>, sts: seq<RoutineState>)
    requires Wf(e) && Wf(e') && ScriptsOf(e') == ScriptsOf(e) && NoCostlier(e, e')
    requires AllStackWf(e, sts)
    ensures AllStackWf(e', sts)
    ensures TotalPotential(e', sts) <= TotalPotential(e, sts)
    decreases |sts|
  {
    forall i | 0 <= i < |sts|
      ensures StackWf(e', sts[i].stack)
    {
      PotentialMono(e, e', sts[i].stack);
    }
    if sts != [] {
      var n := |sts| - 1;
      TotalPotentialMono(e, e', sts[..n]);
      PotentialMono(e, e', sts[n].stack);
    }
  }

  lemma TotalPotentialSnoc(e: seq<Producer>, sts: seq<RoutineState>, st: RoutineState)
    requires Wf(e) && AllStackWf(e, sts) && StackWf(e, st.stack)
    ensures AllStackWf(e, sts + [st])
    ensures TotalPotential(e, sts + [st]) == TotalPotential(e, sts) + Potential(e, st.stack)
  {
    assert (sts + [st])[..|sts|] == sts;
  }

  /** Done routines cost nothing, so dropping them keeps the total. */
  lemma {:induction false} TotalPotentialLive(e: seq<Producer>, sts: seq<RoutineState>)
    requires Wf(e) && AllStackWf(e, sts)
    ensures AllStackWf(e, Keep(sts, sts))
    ensures TotalPotential(e, Keep(sts, sts)) == TotalPotential(e, sts)
    decreases |sts|
  {
    KeepMembers(sts, sts);
    if sts != [] {
      var n := |sts| - 1;
      var init := sts[..n];
      assert AllStackWf(e, init);
      TotalPotentialLive(e, init);
      var k0 := Keep(init, init);
      assert Keep(sts, sts) == Keep(init, init) + (if sts[n].IsDone() then [] else [sts[n]]);
      assert TotalPotential(e, sts) == TotalPotential(e, init) + Potential(e, sts[n].stack);
      if !sts[n].IsDone() {
        TotalPotentialSnoc(e, k0, sts[n]);
      } else {
        assert Keep(sts, sts) == k0;
        assert Potential(e, sts[n].stack) == 0;
      }
    }
  }


  lemma {:induction false} TotalPotentialCons(e: seq<Producer>, st: RoutineState, sts: seq<RoutineState>)
    requires Wf(e) && StackWf(e, st.stack) && AllStackWf(e, sts)
    ensures AllStackWf(e, [st] + sts)
    ensures TotalPotential(e, [st] + sts) == Potential(e, st.stack) + TotalPotential(e, sts)
    decreases |sts|
  {
    var all := [st] + sts;
    assert forall i :: 0 < i < |all| ==> all[i] == sts[i - 1];
    if sts != [] {
      var n := |sts| - 1;
      TotalPotentialCons(e, st, sts[..n]);
      assert all[..n + 1] == [st] + sts[..n];
      assert all[n + 1] == sts[n];
    } else {
      assert all == [st];
      assert all[..0] == [];
    }
  }

  /** Routines that may be pumped over `e` may still be pumped over entries no costlier. */
  lemma RunnableAfter(e: seq<Producer>, e': seq<Producer>, sts: seq<RoutineState>)
    requires Wf(e) && AllRunnable(e, sts)
    requires Wf(e') && ScriptsOf(e') == ScriptsOf(e) && NoCostlier(e, e')
    ensures AllRunnable(e', sts)
  {
    WfClosed(e');
    forall i | 0 <= i < |sts|
      ensures Runnable(e', sts[i])
    {
      PotentialMono(e, e', sts[i].stack);
    }
  }

  /** A sweep that does not throw leaves each routine done or runnable, and lowers the total potential by at least one per routine. */
  predicate SweepLowers(e: seq<Producer>, sts: seq<RoutineState>, lineage: Lineage)
    requires Wf(e) && AllFit(e, sts) && AllStackWf(e, sts)
  {
    WfClosed(e);
    SweepKeeps(e, sts, lineage);
    var r := SweepSpec(e, sts, lineage);
    r.fault.None? ==>
      Wf(r.entries) && NoCostlier(e, r.entries) && AllSettled(r.entries, r.states) &&
      TotalPotential(r.entries, r.states) + |sts| <= TotalPotential(e, sts)
  }

  /** A routine settled over `e1` stays settled over entries no costlier, in front of others settled there. */
  lemma SettledCons(e1: seq<Producer>, st1: RoutineState, e2: seq<Producer>, states2: seq<RoutineState>)
    requires Wf(e1) && Settled(e1, st1)
    requires Wf(e2) && ScriptsOf(e2) == ScriptsOf(e1) && NoCostlier(e1, e2) && AllSettled(e2, states2)
    ensures Settled(e2, st1) && AllSettled(e2, [st1] + states2)
  {
    PotentialMono(e1, e2, st1.stack);
  }

  /**
   * The sum of one step of `SweepDecreases`: a pump of the first routine that
   * lowered its potential, then a sweep of the rest that lowered theirs by
   * one each.
   */
  lemma LowersCons(e: seq<Producer>, sts: seq<RoutineState>, e1: seq<Producer>, st1: RoutineState,
                   e2: seq<Producer>, states2: seq<RoutineState>)
    requires Wf(e) && sts != [] && AllStackWf(e, sts)
    requires Wf(e1) && ScriptsOf(e1) == ScriptsOf(e) && NoCostlier(e, e1) && AllStackWf(e1, sts[1..])
    requires Settled(e1, st1) && Potential(e1, st1.stack) < Potential(e, sts[0].stack)
    requires Wf(e2) && ScriptsOf(e2) == ScriptsOf(e1) && NoCostlier(e1, e2) && AllSettled(e2, states2)
    requires TotalPotential(e2, states2) + |sts| - 1 <= TotalPotential(e1, sts[1..])
    ensures NoCostlier(e, e2) && AllSettled(e2, [st1] + states2)
    ensures TotalPotential(e2, [st1] + states2) + |sts| <= TotalPotential(e, sts)
  {
    var st, rest := sts[0], sts[1..];
    assert sts == [st] + rest;
    assert AllStackWf(e, rest);
    NoCostlierTrans(e, e1, e2);
    SettledCons(e1, st1, e2, states2);
    PotentialMono(e1, e2, st1.stack);
    assert AllStackWf(e2, states2);
    TotalPotentialCons(e2, st1, states2);
    TotalPotentialMono(e, e1, rest);
    TotalPotentialCons(e, st, rest);
  }

  /** A sweep that did not throw is the pump of the first routine, then a sweep of the rest that did not throw. */
  lemma SweepFirst(e: seq<Producer>, sts: seq<RoutineState>, lineage: Lineage)
    requires Closed(e) && AllFit(e, sts) && sts != []
    ensures var o := PumpSpec(e, sts[0], lineage);
            var r := SweepSpec(e, sts, lineage);
            r.fault.None? ==>
              o.Pumped? && AllFit(o.entries, sts[1..]) &&
              var r1 := SweepSpec(o.entries, sts[1..], lineage);
              r1.fault.None? && r.entries == r1.entries && r.states == [o.state] + r1.states
  {
  }

  /** The step of `SweepDecreases`: the pump of the first routine, then the sweep of the rest. */
  lemma SweepLowersStep(e: seq<Producer>, sts: seq<RoutineState>, lineage: Lineage)
    requires Wf(e) && AllRunnable(e, sts) && sts != [] && AllFit(e, sts) && AllStackWf(e, sts)
    requires var o := PumpSpec(e, sts[0], lineage);
             o.Pumped? ==>
               Wf(o.entries) && ScriptsOf(o.entries) == ScriptsOf(e) && AllFit(o.entries, sts[1..]) &&
               AllStackWf(o.entries, sts[1..]) && SweepLowers(o.entries, sts[1..], lineage)
    ensures SweepLowers(e, sts, lineage)
  {
    WfClosed(e);
    SweepKeeps(e, sts, lineage);
    SweepFirst(e, sts, lineage);
    var st, rest := sts[0], sts[1..];
    var o := PumpSpec(e, st, lineage);
    if SweepSpec(e, sts, lineage).fault.None? {
      PumpDecreases(e, st, lineage);
      PumpNoCostlier(e, st, lineage);
      PumpProperties(e, st, lineage);
      var r1 := SweepSpec(o.entries, rest, lineage);
      SweepKeeps(o.entries, rest, lineage);
      LowersCons(e, sts, o.entries, o.state, r1.entries, r1.states);
    }
  }

  /**
   * A sweep of runnable routines that does not throw leaves each routine done
   * or runnable, and lowers the total potential by at least one per routine.
   */
  lemma {:induction false} SweepDecreases(e: seq<Producer>, sts: seq<RoutineState>, lineage: Lineage)
    requires Wf(e) && AllRunnable(e, sts)
    ensures AllFit(e, sts) && AllStackWf(e, sts)
    ensures SweepLowers(e, sts, lineage)
    decreases |sts|
  {
    WfClosed(e);
    assert AllFit(e, sts) && AllStackWf(e, sts);
    if sts == [] {
      assert NoCostlier(e, e);
    } else {
      var o := PumpSpec(e, sts[0], lineage);
      if o.Pumped? {
        PumpNoCostlier(e, sts[0], lineage);
        assert AllRunnable(e, sts[1..]);
        RunnableAfter(e, o.entries, sts[1..]);
        SweepDecreases(o.entries, sts[1..], lineage);
      }
      SweepLowersStep(e, sts, lineage);
    }
  }

  /** The outcome of a parallel group: its entries, how many rounds completed (each yields once), and the exception it let out. */
  datatype Group = Group(entries: seq<Producer>, rounds: nat, error: Option<Exn>)

  /** Rounds of pumping every listed routine once and dropping the done ones, until the list is empty or a pump throws. */
  function GroupSpec(e: seq<Producer>, sts: seq<RoutineState>, lineage: Lineage): (g: Group)
    requires Wf(e) && AllRunnable(e, sts)
    ensures Wf(g.entries) && ScriptsOf(g.entries) == ScriptsOf(e)
    ensures sts == [] <==> g == Group(e, 0, None)
    ensures g.error.None? && sts != [] ==> g.rounds >= 1
    decreases TotalPotential(e, sts)
  {
    if sts == [] then Group(e, 0, None)
    else
      var r := SweepSpec(e, sts, lineage);
      SweepDecreases(e, sts, lineage);
      SweepKeeps(e, sts, lineage);
      match r.fault
      case Some(fault) =>
        WfAfterFault(e, sts, lineage);
        Group(r.entries, 0, Some(fault.error))
      case None =>
        var live := Live(r.states);
        TotalPotentialLive(r.entries, r.states);
        LiveRunnable(r.entries, r.states);
        var g := GroupSpec(r.entries, live, lineage);
        Group(g.entries, g.rounds + 1, g.error)
  }

  /** The routines left after a round of a group may all be pumped again. */
  lemma LiveRunnable(e: seq<Producer>, sts: seq<RoutineState>)
    requires Wf(e) && AllSettled(e, sts)
    ensures AllRunnable(e, Live(sts))
  {
    WfClosed(e);
    KeepMembers(sts, sts);
    forall j | 0 <= j < |Live(sts)|
      ensures Runnable(e, Live(sts)[j])
    {
      var i :| 0 <= i < |sts| && sts[i] == Live(sts)[j] && !sts[i].IsDone();
      assert Settled(e, sts[i]);
    }
  }

  /** A sweep that throws still leaves a well-founded arena. */
  lemma {:induction false} WfAfterFault(e: seq<Producer>, sts: seq<RoutineState>, lineage: Lineage)
    requires Wf(e) && AllRunnable(e, sts)
    ensures Wf(SweepSpec(e, sts, lineage).entries)
    decreases |sts|
  {
    WfClosed(e);
    if sts != [] {
      var o := PumpSpec(e, sts[0], lineage);
      if o.Pumped? {
        PumpNoCostlier(e, sts[0], lineage);
        assert AllRunnable(e, sts[1..]);
        RunnableAfter(e, o.entries, sts[1..]);
        WfAfterFault(o.entries, sts[1..], lineage);
      } else {
        AdvanceKeepsWf(e, sts[0].stack[0]);
      }
    }
  }
}
