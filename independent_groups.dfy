/**
 * Rounds of `MakeParallelGroup` over routines that share no enumerator. The
 * enumerators are coloured; a routine touches only enumerators of its own
 * colour, and every enumerator yields only enumerators of its own colour. Then
 * one routine's pumps leave every other routine's enumerators as they were,
 * each routine runs as it would alone, and the group yields once per round
 * until its longest member is done.
 */
module IndependentGroups {
  import opened Wrappers
  import opened CoroutineExceptions
  import opened Producers
  import opened ObjectTraces
  import opened RoutineSpec
  import opened Sweeps
  import opened Combinators

  /** `v` is not an enumerator, or one of colour `c`. */
  predicate ValueHued(v: Value, hue: seq<nat>, c: nat) {
    v.Enumerator? ==> v.id < |hue| && hue[v.id] == c
  }

  /** What `p` holds and may yield is of colour `c`. */
  predicate ProducerHued(p: Producer, hue: seq<nat>, c: nat) {
    ValueHued(p.current, hue, c) &&
    forall k :: 0 <= k < |p.script| && p.script[k].Yield? ==> ValueHued(p.script[k].value, hue, c)
  }

  /** Every enumerator holds and yields only enumerators of its own colour. */
  predicate Hued(e: seq<Producer>, hue: seq<nat>) {
    |hue| == |e| && forall j :: 0 <= j < |e| ==> ProducerHued(e[j], hue, hue[j])
  }

  predicate IdsHued(ids: seq<Id>, hue: seq<nat>, c: nat) {
    forall i :: 0 <= i < |ids| ==> ids[i] < |hue| && hue[ids[i]] == c
  }

  /** The routine's stacked and finished enumerators are of colour `c`. */
  predicate StateHued(st: RoutineState, hue: seq<nat>, c: nat) {
    IdsHued(st.stack, hue, c) && IdsHued(st.finished, hue, c)
  }

  /** `e` and `e'` hold the same enumerators of colour `c`. */
  predicate SameHue(e: seq<Producer>, e': seq<Producer>, hue: seq<nat>, c: nat) {
    |e| == |hue| && |e'| == |hue| && forall j :: 0 <= j < |hue| && hue[j] == c ==> e'[j] == e[j]
  }

  /** Routine `i` has colour `cs[i]`, and no two routines share a colour. */
  predicate Apart(sts: seq<RoutineState>, hue: seq<nat>, cs: seq<nat>) {
    |cs| == |sts| &&
    (forall i :: 0 <= i < |sts| ==> StateHued(sts[i], hue, cs[i])) &&
    forall i, j :: 0 <= i < j < |cs| ==> cs[i] != cs[j]
  }

  // ---------------------------------------------------------------------------
  // One pump

  /** Two arenas that agree on a routine's enumerators give the same pump, apart from the entries it leaves alone. */
  lemma PumpAgrees(e: seq<Producer>, e': seq<Producer>, st: RoutineState, lineage: Lineage)
    requires Closed(e) && Closed(e') && Fits(e, st) && |e'| == |e|
    requires forall i :: 0 <= i < |st.finished| ==> e'[st.finished[i]] == e[st.finished[i]]
    requires forall i :: 0 <= i < |st.stack| ==> e'[st.stack[i]] == e[st.stack[i]]
    ensures Fits(e', st)
    ensures var o, o' := PumpSpec(e, st, lineage), PumpSpec(e', st, lineage);
            o.Threw? == o'.Threw? && (o.Threw? ==> o'.error == o.error) &&
            (o.Pumped? ==> o'.state == o.state && o'.more == o.more) &&
            (st.IsDone() ==> o.entries == e && o'.entries == e') &&
            (!st.IsDone() ==> o.entries == e[st.stack[0] := o.entries[st.stack[0]]] &&
                              o'.entries == e'[st.stack[0] := o.entries[st.stack[0]]])
  {
    if !st.IsDone() {
      var ids := st.finished + st.stack;
      assert Owners(e', ids) == Owners(e, ids) by {
        forall i | 0 <= i < |ids|
          ensures e'[ids[i]] == e[ids[i]]
        {
          if i < |st.finished| {
            assert ids[i] == st.finished[i];
          } else {
            assert ids[i] == st.stack[i - |st.finished|];
          }
        }
      }
      assert e'[st.stack[0]] == e[st.stack[0]];
    }
  }

  /** A pump advances one enumerator of the routine's colour and leaves the others; its outcome depends only on that colour. */
  lemma PumpFrame(e: seq<Producer>, e': seq<Producer>, hue: seq<nat>, c: nat, st: RoutineState, lineage: Lineage)
    requires Closed(e) && Closed(e') && Fits(e, st) && SameHue(e, e', hue, c) && StateHued(st, hue, c)
    ensures Fits(e', st)
    ensures var o, o' := PumpSpec(e, st, lineage), PumpSpec(e', st, lineage);
            o.Threw? == o'.Threw? && (o.Threw? ==> o'.error == o.error) &&
            (o.Pumped? ==> o'.state == o.state && o'.more == o.more) &&
            SameHue(o.entries, o'.entries, hue, c) &&
            forall j :: 0 <= j < |e| && hue[j] != c ==> o'.entries[j] == e'[j]
  {
    PumpAgrees(e, e', st, lineage);
  }

  /** A pump keeps the colouring, and the routine keeps its colour. */
  lemma PumpKeepsHue(e: seq<Producer>, hue: seq<nat>, c: nat, st: RoutineState, lineage: Lineage)
    requires Closed(e) && Fits(e, st) && Hued(e, hue) && StateHued(st, hue, c)
    ensures var o := PumpSpec(e, st, lineage);
            Hued(o.entries, hue) && (o.Pumped? ==> StateHued(o.state, hue, c))
  {
    PumpProperties(e, st, lineage);
    if !st.IsDone() && st.returnValue == Null {
      var top := st.stack[0];
      var p := e[top];
      assert ProducerHued(p, hue, c);
      var q := Advance(p).1;
      assert ProducerHued(q, hue, c) by {
        if Advance(p).0 == Moved(true) {
          assert p.script[p.cursor].Yield?;
        }
      }
      var o := PumpSpec(e, st, lineage);
      assert o.entries == e[top := q];
      if o.Pumped? {
        var pushed := if q.current.Enumerator? then [q.current.id] else [];
        assert IdsHued(pushed, hue, c);
        var popped := if Advance(p).0.more then st.stack else st.stack[1..];
        assert o.state.stack == pushed + popped;
        assert IdsHued(popped, hue, c);
      }
    }
  }

  // ---------------------------------------------------------------------------
  // A whole run

  /** A routine pumped to its end makes as many pumps, and throws the same, over entries that agree on its colour. */
  lemma {:induction false} DriveFrame(e: seq<Producer>, e': seq<Producer>, hue: seq<nat>, c: nat, st: RoutineState, lineage: Lineage)
    requires Runnable(e, st) && Runnable(e', st) && Hued(e, hue) && SameHue(e, e', hue, c) && StateHued(st, hue, c)
    ensures Drive(e', st, lineage).truePumps == Drive(e, st, lineage).truePumps
    ensures Drive(e', st, lineage).error == Drive(e, st, lineage).error
    decreases Potential(e, st.stack)
  {
    WfClosed(e);
    WfClosed(e');
    PumpFrame(e, e', hue, c, st, lineage);
    PumpKeepsHue(e, hue, c, st, lineage);
    PumpDecreases(e, st, lineage);
    PumpDecreases(e', st, lineage);
    var o, o' := PumpSpec(e, st, lineage), PumpSpec(e', st, lineage);
    if o.Pumped? && o.more {
      PumpProperties(e, st, lineage);
      DriveFrame(o.entries, o'.entries, hue, c, o.state, lineage);
    }
  }

  // ---------------------------------------------------------------------------
  // A round

  /** After the first routine's pump, the others pump as they would have before it. */
  lemma OthersAfterFirst(e: seq<Producer>, sts: seq<RoutineState>, hue: seq<nat>, cs: seq<nat>, lineage: Lineage)
    requires Closed(e) && AllFit(e, sts) && Hued(e, hue) && Apart(sts, hue, cs) && sts != []
    requires forall i :: 0 <= i < |sts| ==> PumpSpec(e, sts[i], lineage).Pumped?
    ensures var e1, rest := PumpSpec(e, sts[0], lineage).entries, sts[1..];
            Closed(e1) && Hued(e1, hue) && AllFit(e1, rest) && AllFit(e, rest) && Apart(rest, hue, cs[1..]) &&
            (forall j :: 0 <= j < |e| && hue[j] != cs[0] ==> e1[j] == e[j]) &&
            forall i :: 0 <= i < |rest| ==>
              PumpSpec(e1, rest[i], lineage).Pumped? &&
              PumpSpec(e1, rest[i], lineage).state == PumpSpec(e, rest[i], lineage).state &&
              SameHue(PumpSpec(e, rest[i], lineage).entries, PumpSpec(e1, rest[i], lineage).entries, hue, cs[1..][i])
  {
    var e1, rest := PumpSpec(e, sts[0], lineage).entries, sts[1..];
    PumpKeepsHue(e, hue, cs[0], sts[0], lineage);
    PumpFrame(e, e, hue, cs[0], sts[0], lineage);
    AllFitResized(e, e1, rest);
    forall i | 0 <= i < |rest|
      ensures PumpSpec(e1, rest[i], lineage).Pumped?
      ensures PumpSpec(e1, rest[i], lineage).state == PumpSpec(e, rest[i], lineage).state
      ensures SameHue(PumpSpec(e, rest[i], lineage).entries, PumpSpec(e1, rest[i], lineage).entries, hue, cs[1..][i])
    {
      assert rest[i] == sts[i + 1] && cs[1..][i] == cs[i + 1];
      assert cs[0] != cs[i + 1];
      PumpFrame(e, e1, hue, cs[i + 1], rest[i], lineage);
    }
  }

  /** A sweep changes only enumerators of the swept routines' colours. */
  lemma {:induction false} SweepTouches(e: seq<Producer>, sts: seq<RoutineState>, hue: seq<nat>, cs: seq<nat>, lineage: Lineage)
    requires Closed(e) && AllFit(e, sts) && |hue| == |e| && |cs| == |sts|
    requires forall i :: 0 <= i < |sts| ==> StateHued(sts[i], hue, cs[i])
    ensures forall j :: 0 <= j < |e| && hue[j] !in cs ==> SweepSpec(e, sts, lineage).entries[j] == e[j]
    decreases |sts|
  {
    if sts != [] {
      var o0 := PumpSpec(e, sts[0], lineage);
      PumpFrame(e, e, hue, cs[0], sts[0], lineage);
      if o0.Pumped? {
        AllFitResized(e, o0.entries, sts[1..]);
        SweepTouches(o0.entries, sts[1..], hue, cs[1..], lineage);
        forall j | 0 <= j < |e| && hue[j] !in cs
          ensures SweepSpec(e, sts, lineage).entries[j] == e[j]
        {
          assert hue[j] !in cs[1..] && hue[j] != cs[0];
        }
      }
    }
  }

  /** The pumps of the other routines leave a routine's colour as it was. */
  lemma {:induction false} SweepApart(e: seq<Producer>, sts: seq<RoutineState>, hue: seq<nat>, cs: seq<nat>, lineage: Lineage)
    requires Closed(e) && AllFit(e, sts) && Hued(e, hue) && Apart(sts, hue, cs)
    requires forall i :: 0 <= i < |sts| ==> PumpSpec(e, sts[i], lineage).Pumped?
    ensures var r := SweepSpec(e, sts, lineage);
            r.fault.None? && Hued(r.entries, hue) && |r.states| == |sts| &&
            (forall i :: 0 <= i < |sts| ==> r.states[i] == PumpSpec(e, sts[i], lineage).state) &&
            (forall i :: 0 <= i < |sts| ==> SameHue(PumpSpec(e, sts[i], lineage).entries, r.entries, hue, cs[i]))
    decreases |sts|
  {
    if sts != [] {
      var o0 := PumpSpec(e, sts[0], lineage);
      var e1 := o0.entries;
      var rest, crest := sts[1..], cs[1..];
      OthersAfterFirst(e, sts, hue, cs, lineage);
      SweepApart(e1, rest, hue, crest, lineage);
      SweepTouches(e1, rest, hue, crest, lineage);
      var r1 := SweepSpec(e1, rest, lineage);
      var r := SweepSpec(e, sts, lineage);
      assert r == Behind([o0.state], r1);
      assert r.entries == r1.entries && r.states == [o0.state] + r1.states && r.fault.None?;
      RestApart(e, e1, rest, r1.states, r1.entries, hue, crest, lineage);
      assert SameHue(o0.entries, r.entries, hue, cs[0]) by {
        forall j | 0 <= j < |hue| && hue[j] == cs[0]
          ensures r.entries[j] == e1[j]
        {
          assert hue[j] !in crest;
        }
      }
      ShiftApart(e, sts, rest, cs, crest, hue, o0.state, r1.states, r.entries, lineage);
    }
  }

  /** The first routine's outcome, followed by the rest's, is every routine's outcome. */
  lemma ShiftApart(e: seq<Producer>, sts: seq<RoutineState>, rest: seq<RoutineState>, cs: seq<nat>, crest: seq<nat>,
                   hue: seq<nat>, first: RoutineState, states: seq<RoutineState>, entries: seq<Producer>, lineage: Lineage)
    requires Closed(e) && AllFit(e, sts) && sts != [] && |cs| == |sts| && rest == sts[1..] && crest == cs[1..]
    requires |states| == |rest|
    requires forall i :: 0 <= i < |sts| ==> PumpSpec(e, sts[i], lineage).Pumped?
    requires first == PumpSpec(e, sts[0], lineage).state && SameHue(PumpSpec(e, sts[0], lineage).entries, entries, hue, cs[0])
    requires forall i :: 0 <= i < |rest| ==> states[i] == PumpSpec(e, rest[i], lineage).state
    requires forall i :: 0 <= i < |rest| ==> SameHue(PumpSpec(e, rest[i], lineage).entries, entries, hue, crest[i])
    ensures var all := [first] + states;
            |all| == |sts| &&
            (forall i :: 0 <= i < |sts| ==> all[i] == PumpSpec(e, sts[i], lineage).state) &&
            (forall i :: 0 <= i < |sts| ==> SameHue(PumpSpec(e, sts[i], lineage).entries, entries, hue, cs[i]))
  {
    var all := [first] + states;
    forall i | 1 <= i < |sts|
      ensures all[i] == PumpSpec(e, sts[i], lineage).state
      ensures SameHue(PumpSpec(e, sts[i], lineage).entries, entries, hue, cs[i])
    {
      assert rest[i - 1] == sts[i] && crest[i - 1] == cs[i] && all[i] == states[i - 1];
    }
  }

  /** The rest of a round, pumped after the first routine, ends as each of its routines' own pumps on the arena before the round. */
  lemma RestApart(e: seq<Producer>, e1: seq<Producer>, rest: seq<RoutineState>, states: seq<RoutineState>,
                  entries: seq<Producer>, hue: seq<nat>, crest: seq<nat>, lineage: Lineage)
    requires Closed(e) && Closed(e1) && AllFit(e, rest) && AllFit(e1, rest) && |states| == |rest| && |crest| == |rest|
    requires forall i :: 0 <= i < |rest| ==>
               PumpSpec(e, rest[i], lineage).Pumped? && PumpSpec(e1, rest[i], lineage).Pumped? &&
               PumpSpec(e1, rest[i], lineage).state == PumpSpec(e, rest[i], lineage).state &&
               SameHue(PumpSpec(e, rest[i], lineage).entries, PumpSpec(e1, rest[i], lineage).entries, hue, crest[i])
    requires forall i :: 0 <= i < |rest| ==> states[i] == PumpSpec(e1, rest[i], lineage).state
    requires forall i :: 0 <= i < |rest| ==> SameHue(PumpSpec(e1, rest[i], lineage).entries, entries, hue, crest[i])
    ensures forall i :: 0 <= i < |rest| ==> states[i] == PumpSpec(e, rest[i], lineage).state
    ensures forall i :: 0 <= i < |rest| ==> SameHue(PumpSpec(e, rest[i], lineage).entries, entries, hue, crest[i])
  {
    forall i | 0 <= i < |rest|
      ensures SameHue(PumpSpec(e, rest[i], lineage).entries, entries, hue, crest[i])
    {
      SameHueTrans(PumpSpec(e, rest[i], lineage).entries, PumpSpec(e1, rest[i], lineage).entries, entries, hue, crest[i]);
    }
  }

  lemma SameHueTrans(a: seq<Producer>, b: seq<Producer>, c: seq<Producer>, hue: seq<nat>, col: nat)
    requires SameHue(a, b, hue, col) && SameHue(b, c, hue, col)
    ensures SameHue(a, c, hue, col)
  {
  }

  // ---------------------------------------------------------------------------
  // The rounds

  /** Keeping the same positions of two lists keeps the pairs they form. */
  lemma {:induction false} KeepPairs<A, B>(xs: seq<A>, ys: seq<B>, sts: seq<RoutineState>, pair: (A, B) -> bool)
    requires |xs| == |sts| && |ys| == |sts|
    requires forall i :: 0 <= i < |sts| ==> pair(xs[i], ys[i])
    ensures |Keep(xs, sts)| == |Keep(ys, sts)|
    ensures forall k :: 0 <= k < |Keep(xs, sts)| ==> pair(Keep(xs, sts)[k], Keep(ys, sts)[k])
    decreases |sts|
  {
    if sts != [] {
      var n := |sts| - 1;
      KeepPairs(xs[..n], ys[..n], sts[..n], pair);
    }
  }

  /** What one round does to routine `i`: it is done after one pump, or it has one pump fewer to go, over the round's entries. */
  lemma RoundStep(e: seq<Producer>, sts: seq<RoutineState>, hue: seq<nat>, cs: seq<nat>, i: nat, lineage: Lineage)
    requires Wf(e) && AllRunnable(e, sts) && Hued(e, hue) && Apart(sts, hue, cs) && i < |sts|
    requires forall k :: 0 <= k < |sts| ==> PumpSpec(e, sts[k], lineage).Pumped?
    requires Wf(SweepSpec(e, sts, lineage).entries) && AllSettled(SweepSpec(e, sts, lineage).entries, SweepSpec(e, sts, lineage).states)
    ensures var r := SweepSpec(e, sts, lineage);
            |r.states| == |sts| &&
            (r.states[i].IsDone() ==> Drive(e, sts[i], lineage).truePumps == 0 && Drive(e, sts[i], lineage).error.None?) &&
            (!r.states[i].IsDone() ==>
               Runnable(r.entries, r.states[i]) &&
               Drive(r.entries, r.states[i], lineage).truePumps + 1 == Drive(e, sts[i], lineage).truePumps &&
               Drive(r.entries, r.states[i], lineage).error == Drive(e, sts[i], lineage).error)
  {
    WfClosed(e);
    assert Runnable(e, sts[i]);
    SweepApart(e, sts, hue, cs, lineage);
    var r := SweepSpec(e, sts, lineage);
    var o := PumpSpec(e, sts[i], lineage);
    PumpProperties(e, sts[i], lineage);
    PumpDecreases(e, sts[i], lineage);
    PumpKeepsHue(e, hue, cs[i], sts[i], lineage);
    assert r.states[i] == o.state;
    if !o.state.IsDone() {
      assert Settled(r.entries, r.states[i]);
      DriveFrame(o.entries, r.entries, hue, cs[i], o.state, lineage);
    }
  }

  /** The routines left after a round keep their colours, and no two share one. */
  lemma LiveApart(e: seq<Producer>, sts: seq<RoutineState>, hue: seq<nat>, cs: seq<nat>, lineage: Lineage)
    requires Closed(e) && AllFit(e, sts) && Hued(e, hue) && Apart(sts, hue, cs)
    requires forall i :: 0 <= i < |sts| ==> PumpSpec(e, sts[i], lineage).Pumped?
    ensures var r := SweepSpec(e, sts, lineage);
            |r.states| == |sts| && Apart(Live(r.states), hue, Keep(cs, r.states))
  {
    SweepApart(e, sts, hue, cs, lineage);
    var r := SweepSpec(e, sts, lineage);
    forall i | 0 <= i < |sts|
      ensures StateHued(r.states[i], hue, cs[i])
    {
      PumpKeepsHue(e, hue, cs[i], sts[i], lineage);
    }
    KeepPairs(r.states, cs, r.states, (st, c) => StateHued(st, hue, c));
    KeepUnique(cs, r.states);
  }

  /** Routines that do not throw when pumped to their end do not throw on their first pump. */
  lemma FirstPumps(e: seq<Producer>, sts: seq<RoutineState>, lineage: Lineage)
    requires Wf(e) && AllRunnable(e, sts)
    requires forall i :: 0 <= i < |sts| ==> Drive(e, sts[i], lineage).error.None?
    ensures Closed(e) && AllFit(e, sts)
    ensures forall i :: 0 <= i < |sts| ==> PumpSpec(e, sts[i], lineage).Pumped?
  {
    WfClosed(e);
    forall i | 0 <= i < |sts|
      ensures PumpSpec(e, sts[i], lineage).Pumped?
    {
      assert Runnable(e, sts[i]);
    }
  }

  /** A round that does not throw leaves live routines that may be pumped again, with less potential. */
  lemma RoundLowers(e: seq<Producer>, sts: seq<RoutineState>, lineage: Lineage)
    requires Wf(e) && AllRunnable(e, sts) && sts != []
    requires SweepSpec(e, sts, lineage).fault.None?
    ensures var r := SweepSpec(e, sts, lineage);
            Wf(r.entries) && AllRunnable(r.entries, Live(r.states)) &&
            AllStackWf(r.entries, Live(r.states)) && AllStackWf(e, sts) &&
            TotalPotential(r.entries, Live(r.states)) < TotalPotential(e, sts)
  {
    SweepDecreases(e, sts, lineage);
    SweepKeeps(e, sts, lineage);
    var r := SweepSpec(e, sts, lineage);
    assert Wf(r.entries) && AllSettled(r.entries, r.states);
    TotalPotentialLive(r.entries, r.states);
    LiveRunnable(r.entries, r.states);
  }

  /** A round that does not throw: the group yields once and goes on with the live routines. */
  lemma RoundUnfolds(e: seq<Producer>, sts: seq<RoutineState>, lineage: Lineage)
    requires Wf(e) && AllRunnable(e, sts) && sts != []
    requires SweepSpec(e, sts, lineage).fault.None?
    ensures var r := SweepSpec(e, sts, lineage);
            Wf(r.entries) && AllRunnable(r.entries, Live(r.states)) &&
            var g' := GroupSpec(r.entries, Live(r.states), lineage);
            GroupSpec(e, sts, lineage) == Group(g'.entries, g'.rounds + 1, g'.error)
  {
    RoundLowers(e, sts, lineage);
  }

  /** What a round of a group does, for routines that share no enumerator and none of which throws. */
  lemma RoundFacts(e: seq<Producer>, sts: seq<RoutineState>, hue: seq<nat>, cs: seq<nat>, lineage: Lineage)
    requires Wf(e) && AllRunnable(e, sts) && Hued(e, hue) && Apart(sts, hue, cs) && sts != []
    requires forall i :: 0 <= i < |sts| ==> Drive(e, sts[i], lineage).error.None?
    ensures var r := SweepSpec(e, sts, lineage);
            r.fault.None? && |r.states| == |sts| && Wf(r.entries) && Hued(r.entries, hue) &&
            AllRunnable(r.entries, Live(r.states)) && Apart(Live(r.states), hue, Keep(cs, r.states)) &&
            AllStackWf(r.entries, Live(r.states)) && AllStackWf(e, sts) &&
            TotalPotential(r.entries, Live(r.states)) < TotalPotential(e, sts) &&
            var g' := GroupSpec(r.entries, Live(r.states), lineage);
            GroupSpec(e, sts, lineage) == Group(g'.entries, g'.rounds + 1, g'.error)
  {
    FirstPumps(e, sts, lineage);
    SweepApart(e, sts, hue, cs, lineage);
    LiveApart(e, sts, hue, cs, lineage);
    RoundLowers(e, sts, lineage);
    RoundUnfolds(e, sts, lineage);
  }

  /** How many pumps of each routine, pumped alone to its end, return true; none for a routine already done. */
  function TruePumps(e: seq<Producer>, sts: seq<RoutineState>, lineage: Lineage): (ps: seq<nat>)
    requires forall i :: 0 <= i < |sts| && !sts[i].IsDone() ==> Runnable(e, sts[i])
    ensures |ps| == |sts|
    ensures forall i :: 0 <= i < |sts| && sts[i].IsDone() ==> ps[i] == 0
    ensures forall i :: 0 <= i < |sts| && !sts[i].IsDone() ==> ps[i] == Drive(e, sts[i], lineage).truePumps
  {
    seq(|sts|, i requires 0 <= i < |sts| => if sts[i].IsDone() then 0 else Drive(e, sts[i], lineage).truePumps)
  }

  /** What a round does to each routine: it is done, with no true pump, or it has one true pump fewer to go. */
  lemma RoundEach(e: seq<Producer>, sts: seq<RoutineState>, hue: seq<nat>, cs: seq<nat>, lineage: Lineage)
    requires Wf(e) && AllRunnable(e, sts) && Hued(e, hue) && Apart(sts, hue, cs) && sts != []
    requires forall i :: 0 <= i < |sts| ==> Drive(e, sts[i], lineage).error.None?
    ensures var r := SweepSpec(e, sts, lineage);
            |r.states| == |sts| &&
            (forall i :: 0 <= i < |r.states| && !r.states[i].IsDone() ==>
               Runnable(r.entries, r.states[i]) && Drive(r.entries, r.states[i], lineage).error.None?) &&
            var pumps, after := TruePumps(e, sts, lineage), TruePumps(r.entries, r.states, lineage);
            (forall i :: 0 <= i < |r.states| && r.states[i].IsDone() ==> pumps[i] == 0) &&
            (forall i :: 0 <= i < |r.states| && !r.states[i].IsDone() ==> pumps[i] == after[i] + 1)
  {
    FirstPumps(e, sts, lineage);
    SweepDecreases(e, sts, lineage);
    SweepKeeps(e, sts, lineage);
    SweepApart(e, sts, hue, cs, lineage);
    var r := SweepSpec(e, sts, lineage);
    assert Wf(r.entries) && AllSettled(r.entries, r.states);
    forall i | 0 <= i < |sts|
      ensures !r.states[i].IsDone() ==>
                Runnable(r.entries, r.states[i]) && Drive(r.entries, r.states[i], lineage).error.None?
      ensures r.states[i].IsDone() ==> Drive(e, sts[i], lineage).truePumps == 0
      ensures !r.states[i].IsDone() ==>
                Runnable(r.entries, r.states[i]) &&
                Drive(e, sts[i], lineage).truePumps == Drive(r.entries, r.states[i], lineage).truePumps + 1
    {
      RoundStep(e, sts, hue, cs, i, lineage);
    }
  }

  /** Routines that are done or do not throw when pumped to their end leave live routines that do not throw. */
  lemma LiveNoErrors(e: seq<Producer>, sts: seq<RoutineState>, lineage: Lineage)
    requires Wf(e) && AllRunnable(e, Live(sts))
    requires forall i :: 0 <= i < |sts| && !sts[i].IsDone() ==> Runnable(e, sts[i]) && Drive(e, sts[i], lineage).error.None?
    ensures forall k :: 0 <= k < |Live(sts)| ==> Drive(e, Live(sts)[k], lineage).error.None?
  {
    KeepMembers(sts, sts);
    forall k | 0 <= k < |Live(sts)|
      ensures Drive(e, Live(sts)[k], lineage).error.None?
    {
      var i :| 0 <= i < |sts| && sts[i] == Live(sts)[k] && !sts[i].IsDone();
    }
  }

  /** The rounds needed by routines that need `pumps[i] + 1` pumps each: the most of them, and none for no routine. */
  function MostRounds(pumps: seq<nat>): (n: nat)
    ensures forall i :: 0 <= i < |pumps| ==> pumps[i] < n
    ensures pumps != [] ==> exists i :: 0 <= i < |pumps| && n == pumps[i] + 1
    ensures pumps == [] ==> n == 0
    decreases |pumps|
  {
    if pumps == [] then 0
    else
      var n := |pumps| - 1;
      var m := MostRounds(pumps[..n]);
      assert forall i :: 0 <= i < n ==> pumps[..n][i] == pumps[i];
      if m < pumps[n] + 1 then pumps[n] + 1 else m
  }

  lemma MostRoundsSnoc(pumps: seq<nat>, p: nat)
    ensures MostRounds(pumps + [p]) == if MostRounds(pumps) < p + 1 then p + 1 else MostRounds(pumps)
  {
    assert (pumps + [p])[..|pumps|] == pumps;
  }

  /** The live routines' true pumps are the kept entries of all routines' true pumps. */
  lemma KeepTruePumps(e: seq<Producer>, sts: seq<RoutineState>, lineage: Lineage)
    requires forall i :: 0 <= i < |sts| && !sts[i].IsDone() ==> Runnable(e, sts[i])
    ensures forall k :: 0 <= k < |Live(sts)| ==> Runnable(e, Live(sts)[k])
    ensures TruePumps(e, Live(sts), lineage) == Keep(TruePumps(e, sts, lineage), sts)
  {
    var ps := TruePumps(e, sts, lineage);
    KeepPairs(sts, ps, sts, (st: RoutineState, n: nat) => !st.IsDone() ==> Runnable(e, st) && Drive(e, st, lineage).truePumps == n);
    KeepMembers(sts, sts);
    forall k | 0 <= k < |Live(sts)|
      ensures Runnable(e, Live(sts)[k])
    {
      var i :| 0 <= i < |sts| && sts[i] == Live(sts)[k] && !sts[i].IsDone();
    }
  }

  /**
   * A round takes one pump from every routine: those that needed one are
   * done, the others need one fewer. The round plus the rounds the rest need
   * are the rounds all needed.
   */
  lemma {:induction false} MostRoundsKeep(pumps: seq<nat>, after: seq<nat>, sts: seq<RoutineState>)
    requires |pumps| == |sts| && |after| == |sts| && sts != []
    requires forall i :: 0 <= i < |sts| && sts[i].IsDone() ==> pumps[i] == 0
    requires forall i :: 0 <= i < |sts| && !sts[i].IsDone() ==> pumps[i] == after[i] + 1
    ensures MostRounds(pumps) == MostRounds(Keep(after, sts)) + 1
    decreases |sts|
  {
    var init := pumps[..|pumps| - 1];
    var an, sn := after[..|after| - 1], sts[..|after| - 1];
    if |sts| > 1 {
      assert forall i :: 0 <= i < |sn| ==> init[i] == pumps[i] && an[i] == after[i] && sn[i] == sts[i];
      MostRoundsKeep(init, an, sn);
    }
    MostRoundsLast(pumps);
    KeptRounds(after, sts);
    MostRoundsStep(MostRounds(init), MostRounds(Keep(an, sn)), pumps[|pumps| - 1], after[|after| - 1],
                   sts[|after| - 1].IsDone());
  }

  /** The rounds of a list are those of all but its last entry, or that entry's own, whichever is more. */
  lemma MostRoundsLast(pumps: seq<nat>)
    requires pumps != []
    ensures var m, p := MostRounds(pumps[..|pumps| - 1]), pumps[|pumps| - 1];
            MostRounds(pumps) == if m < p + 1 then p + 1 else m
  {
  }

  /** The rounds of the kept entries: those of the kept prefix, raised by the last entry when it is kept. */
  lemma KeptRounds(after: seq<nat>, sts: seq<RoutineState>)
    requires |after| == |sts| && sts != []
    ensures var n := |after| - 1;
            var m, q := MostRounds(Keep(after[..n], sts[..n])), after[n];
            MostRounds(Keep(after, sts)) == if sts[n].IsDone() then m else if m < q + 1 then q + 1 else m
  {
    var n := |after| - 1;
    var kept, q := Keep(after[..n], sts[..n]), after[n];
    var all := Keep(after, sts);
    assert all == kept + (if sts[n].IsDone() then [] else [q]);
    if !sts[n].IsDone() {
      assert all == kept + [q];
      assert all[..|all| - 1] == kept;
      assert all[|all| - 1] == q;
      MostRoundsLast(all);
    } else {
      assert all == kept;
    }
  }

  /** One step of the count: the rounds before a round are one more than after it. */
  lemma MostRoundsStep(a: nat, b: nat, p: nat, q: nat, done: bool)
    requires a == b + 1 || (a == 0 && b == 0)
    requires done ==> p == 0
    requires !done ==> p == q + 1
    ensures (if a < p + 1 then p + 1 else a) == (if done then b else if b < q + 1 then q + 1 else b) + 1
  {
  }

  /**
   * Over routines that share no enumerator and none of which throws, the group
   * completes as many rounds as its longest member pumps: one more than the
   * most pumps that returned true.
   */
  lemma {:induction false} GroupApart(e: seq<Producer>, sts: seq<RoutineState>, hue: seq<nat>, cs: seq<nat>, lineage: Lineage)
    requires Wf(e) && AllRunnable(e, sts) && Hued(e, hue) && Apart(sts, hue, cs)
    requires forall i :: 0 <= i < |sts| ==> Drive(e, sts[i], lineage).error.None?
    ensures GroupSpec(e, sts, lineage).error.None?
    ensures GroupSpec(e, sts, lineage).rounds == MostRounds(TruePumps(e, sts, lineage))
    decreases TotalPotential(e, sts)
  {
    if sts != [] {
      RoundFacts(e, sts, hue, cs, lineage);
      RoundEach(e, sts, hue, cs, lineage);
      var r := SweepSpec(e, sts, lineage);
      LiveNoErrors(r.entries, r.states, lineage);
      GroupApart(r.entries, Live(r.states), hue, Keep(cs, r.states), lineage);
      KeepTruePumps(r.entries, r.states, lineage);
      MostRoundsKeep(TruePumps(e, sts, lineage), TruePumps(r.entries, r.states, lineage), r.states);
    }
  }

  // ---------------------------------------------------------------------------
  // `MakeParallelGroup`

  /** How many pumps of a new routine on each of `runners`, pumped alone to its end, return true. */
  function RunPumps(e: seq<Producer>, runners: seq<Id>, lineage: Lineage): (ps: seq<nat>)
    requires Wf(e) && AllIn(e, runners)
    ensures |ps| == |runners| && forall i :: 0 <= i < |runners| ==> ps[i] == RunOf(e, runners[i], lineage).truePumps
  {
    seq(|runners|, i requires 0 <= i < |runners| => RunOf(e, runners[i], lineage).truePumps)
  }

  /**
   * `MakeParallelGroup(runners)` over enumerators of pairwise different
   * colours, none of which throws when run alone, yields as many times as
   * the longest of them pumps.
   */
  lemma ParallelGroupRounds(e: seq<Producer>, runners: seq<Id>, hue: seq<nat>, lineage: Lineage)
    requires Wf(e) && AllIn(e, runners) && Hued(e, hue)
    requires forall i, j :: 0 <= i < j < |runners| ==> hue[runners[i]] != hue[runners[j]]
    requires forall i :: 0 <= i < |runners| ==> RunOf(e, runners[i], lineage).error.None?
    ensures ParallelGroup(e, runners, lineage).error.None?
    ensures ParallelGroup(e, runners, lineage).rounds == MostRounds(RunPumps(e, runners, lineage))
  {
    var sts := Initials(runners);
    InitialsRunnable(e, runners);
    var cs := seq(|runners|, i requires 0 <= i < |runners| => hue[runners[i]]);
    InitialsApart(runners, hue, cs);
    InitialsRuns(e, runners, lineage);
    GroupApart(e, sts, hue, cs, lineage);
  }

  /** New routines on runners of pairwise different colours are apart. */
  lemma InitialsApart(runners: seq<Id>, hue: seq<nat>, cs: seq<nat>)
    requires forall i :: 0 <= i < |runners| ==> runners[i] < |hue|
    requires |cs| == |runners| && forall i :: 0 <= i < |runners| ==> cs[i] == hue[runners[i]]
    requires forall i, j :: 0 <= i < j < |runners| ==> hue[runners[i]] != hue[runners[j]]
    ensures Apart(Initials(runners), hue, cs)
  {
    var sts := Initials(runners);
    forall i | 0 <= i < |sts|
      ensures StateHued(sts[i], hue, cs[i])
    {
      assert sts[i].stack == [runners[i]] && sts[i].finished == [];
    }
  }

  /** Driving the new routine on each runner is running that runner alone. */
  lemma InitialsRuns(e: seq<Producer>, runners: seq<Id>, lineage: Lineage)
    requires Wf(e) && AllIn(e, runners)
    ensures AllRunnable(e, Initials(runners))
    ensures forall i :: 0 <= i < |runners| ==> Drive(e, Initials(runners)[i], lineage) == RunOf(e, runners[i], lineage)
    ensures TruePumps(e, Initials(runners), lineage) == RunPumps(e, runners, lineage)
  {
    InitialsRunnable(e, runners);
    var sts := Initials(runners);
    forall i | 0 <= i < |runners|
      ensures !sts[i].IsDone() && Drive(e, sts[i], lineage) == RunOf(e, runners[i], lineage)
    {
      assert sts[i] == Initial(runners[i]);
    }
  }

  /** One pump of a routine on a producer that yields only nulls: the producer moves on, and the routine ends when it is exhausted. */
  lemma PumpPlain(e: seq<Producer>, runner: Id, lineage: Lineage)
    requires Closed(e) && runner < |e| && e[runner].cursor <= |e[runner].script| && e[runner].current == Null
    requires forall k :: 0 <= k < |e[runner].script| ==> e[runner].script[k] == Yield(Null)
    ensures var p, o := e[runner], PumpSpec(e, Initial(runner), lineage);
            o.Pumped? &&
            (p.cursor < |p.script| ==> o.entries == e[runner := p.(cursor := p.cursor + 1)] && o.state == Initial(runner) && o.more) &&
            (p.cursor == |p.script| ==> !o.more)
  {
    var p := e[runner];
    if p.cursor < |p.script| {
      assert p.script[p.cursor] == Yield(Null);
      assert Advance(p) == (Moved(true), p.(cursor := p.cursor + 1));
    }
  }

  /** A routine on a producer that yields only nulls makes one true pump per value left, and does not throw. */
  lemma {:induction false} DrivePlain(e: seq<Producer>, runner: Id, lineage: Lineage)
    requires Wf(e) && runner < |e| && e[runner].cursor <= |e[runner].script| && e[runner].current == Null
    requires forall k :: 0 <= k < |e[runner].script| ==> e[runner].script[k] == Yield(Null)
    ensures Runnable(e, Initial(runner))
    ensures Drive(e, Initial(runner), lineage).error.None?
    ensures Drive(e, Initial(runner), lineage).truePumps == |e[runner].script| - e[runner].cursor
    decreases |e[runner].script| - e[runner].cursor
  {
    InitialRunnable(e, runner);
    WfClosed(e);
    PumpPlain(e, runner, lineage);
    PumpDecreases(e, Initial(runner), lineage);
    var o := PumpSpec(e, Initial(runner), lineage);
    if e[runner].cursor < |e[runner].script| {
      DrivePlain(o.entries, runner, lineage);
    }
  }

  /** A new routine on a producer that yields `n` nulls makes `n` true pumps and does not throw. */
  lemma RunOfPlain(e: seq<Producer>, runner: Id, n: nat, lineage: Lineage)
    requires Wf(e) && runner < |e| && YieldsNulls(e[runner], n)
    ensures RunOf(e, runner, lineage).error.None? && RunOf(e, runner, lineage).truePumps == n
  {
    DrivePlain(e, runner, lineage);
  }

  /** A producer not yet advanced that yields `n` nulls. */
  predicate YieldsNulls(p: Producer, n: nat) {
    p.cursor == 0 && p.current == Null && |p.script| == n &&
    forall k :: 0 <= k < |p.script| ==> p.script[k] == Yield(Null)
  }

  /** Producers needing one, two and three pumps, as a group: three yields, and none thrown. */
  lemma OneTwoThreeRounds(e: seq<Producer>, lineage: Lineage)
    requires |e| == 3 && YieldsNulls(e[0], 0) && YieldsNulls(e[1], 1) && YieldsNulls(e[2], 2)
    ensures Wf(e)
    ensures ParallelGroup(e, [0, 1, 2], lineage).error.None?
    ensures ParallelGroup(e, [0, 1, 2], lineage).rounds == 3
  {
    OwnColours(e, [0, 1, 2], lineage);
  }

  /** The three producers yield no enumerator: the arena is well-founded, and each id may be its own colour. */
  lemma OneTwoThreeWf(e: seq<Producer>, hue: seq<nat>)
    requires |e| == 3 && YieldsNulls(e[0], 0) && YieldsNulls(e[1], 1) && YieldsNulls(e[2], 2)
    requires |hue| == 3 && forall i :: 0 <= i < 3 ==> hue[i] == i
    ensures Wf(e) && Hued(e, hue)
  {
    forall i | 0 <= i < |e|
      ensures ScriptAbove(ScriptsOf(e)[i], i, |e|) && CurrentYielded(e[i]) && ProducerHued(e[i], hue, hue[i])
    {
      assert ScriptsOf(e)[i] == e[i].script;
      assert YieldsNulls(e[i], i);
    }
  }

  /** Run alone, the routines on the three producers make no, one and two true pumps, and none throws. */
  lemma OneTwoThreeRuns(e: seq<Producer>, runners: seq<Id>, lineage: Lineage)
    requires |e| == 3 && YieldsNulls(e[0], 0) && YieldsNulls(e[1], 1) && YieldsNulls(e[2], 2)
    requires |runners| == 3 && forall i :: 0 <= i < 3 ==> runners[i] == i
    ensures Wf(e) && AllIn(e, runners)
    ensures forall i :: 0 <= i < |runners| ==> RunOf(e, runners[i], lineage).error.None?
    ensures forall i :: 0 <= i < |runners| ==> RunPumps(e, runners, lineage)[i] == i
  {
    OneTwoThreeWf(e, runners);
    forall i | 0 <= i < |runners|
      ensures RunOf(e, runners[i], lineage).error.None? && RunOf(e, runners[i], lineage).truePumps == i
    {
      OwnNulls(e, i);
      RunOfPlain(e, i, i, lineage);
    }
  }

  /** Producer `i` of the three yields `i` nulls. */
  lemma OwnNulls(e: seq<Producer>, i: nat)
    requires |e| == 3 && YieldsNulls(e[0], 0) && YieldsNulls(e[1], 1) && YieldsNulls(e[2], 2)
    requires i < 3
    ensures YieldsNulls(e[i], i)
  {
    if i == 0 { } else if i == 1 { } else { assert i == 2; }
  }

  /** Each producer its own colour: the runners are the ids themselves. */
  lemma OwnColours(e: seq<Producer>, runners: seq<Id>, lineage: Lineage)
    requires |e| == 3 && YieldsNulls(e[0], 0) && YieldsNulls(e[1], 1) && YieldsNulls(e[2], 2)
    requires |runners| == 3 && forall i :: 0 <= i < 3 ==> runners[i] == i
    ensures Wf(e) && AllIn(e, runners)
    ensures ParallelGroup(e, runners, lineage).error.None?
    ensures ParallelGroup(e, runners, lineage).rounds == 3
  {
    OneTwoThreeWf(e, runners);
    OneTwoThreeRuns(e, runners, lineage);
    ParallelGroupRounds(e, runners, runners, lineage);
    CountingRounds(RunPumps(e, runners, lineage));
  }

  /** Pump counts 0, 1 and 2 make three rounds. */
  lemma CountingRounds(ps: seq<nat>)
    requires |ps| == 3 && forall i :: 0 <= i < |ps| ==> ps[i] == i
    ensures MostRounds(ps) == 3
  {
    var rounds := MostRounds(ps);
    assert ps[2] == 2 && ps[2] < rounds;
    var i :| 0 <= i < |ps| && rounds == ps[i] + 1;
    assert ps[i] == i;
  }
}
